/** Downloading all chunks in parallel, each written at its own offset as soon as it arrives. */
module Download {
  import opened Content
  import opened Tree
  import opened CacheKeys
  import opened Cache
  import opened CachedReads
  import opened FileSystems
  import opened RateLimit
  import opened Upload
  import opened UploadSafety
  import opened UploadTheorems

  /** Write `data` at `off`; a gap before it is filled with zeros, an empty write changes nothing. */
  function WriteAt(f: Bytes, data: Bytes, off: nat): Bytes {
    if data == [] then f
    else
      var padded := if |f| < off then f + seq(off - |f|, _ => 0) else f;
      padded[..off] + data + if off + |data| <= |padded| then padded[off + |data|..] else []
  }

  /** Chunk `i` exists and can be fetched. */
  ghost predicate Writable(remote: Remote, chunks: seq<ChunkFile>, i: nat) {
    i < |chunks| && 0 <= Offset(chunks, i) && Fetch(remote, chunks[i]).Ok?
  }

  ghost predicate Schedulable(remote: Remote, chunks: seq<ChunkFile>, order: seq<nat>) {
    forall j :: 0 <= j < |order| ==> Writable(remote, chunks, order[j])
  }

  /** The local file after the given chunks have been written, in the given order. */
  ghost function Assembled(remote: Remote, chunks: seq<ChunkFile>, order: seq<nat>): Bytes
    requires Schedulable(remote, chunks, order)
  {
    if order == [] then []
    else
      var n := |order| - 1;
      assert Writable(remote, chunks, order[n]);
      assert Schedulable(remote, chunks, order[..n]) by {
        assert forall j :: 0 <= j < n ==> order[..n][j] == order[j];
      }
      WriteAt(Assembled(remote, chunks, order[..n]), Fetch(remote, chunks[order[n]]).value, Offset(chunks, order[n]))
  }

  /** Every chunk is written exactly once. */
  ghost predicate IsSchedule(order: seq<nat>, n: nat) {
    && (forall j :: 0 <= j < |order| ==> order[j] < n)
    && (forall i: nat :: i < n ==> i in order)
    && (forall j, k :: 0 <= j < k < |order| ==> order[j] != order[k])
  }

  /** The writes do not overlap: a chunk ends where the next one begins, or before. */
  lemma WritesDoNotOverlap(remote: Remote, chunks: seq<ChunkFile>, data: Bytes, i: nat, j: nat)
    requires Holds(remote, chunks, data) && i < j < |chunks|
    ensures Offset(chunks, i) < Offset(chunks, i + 1) <= Offset(chunks, j) < Offset(chunks, j + 1)
  {
    HoldsAt(remote, chunks, data, i);
    HoldsAt(remote, chunks, data, j);
    HoldsOffsetMonotone(remote, chunks, data, i + 1, j);
  }

  /** The file has the right bytes from `lo` to `hi`. */
  predicate Agrees(f: Bytes, data: Bytes, lo: nat, hi: nat) {
    lo <= hi <= |f| && hi <= |data| && f[lo..hi] == data[lo..hi]
  }

  /** Writing right bytes anywhere gains that stretch and spoils none. */
  lemma WriteAtAgrees(f: Bytes, data: Bytes, lo: nat, hi: nat)
    requires lo < hi <= |data| && |f| <= |data|
    ensures |WriteAt(f, data[lo..hi], lo)| <= |data|
    ensures Agrees(WriteAt(f, data[lo..hi], lo), data, lo, hi)
  {
    var g := WriteAt(f, data[lo..hi], lo);
    assert g[lo..hi] == data[lo..hi];
  }

  lemma WriteAtSpoilsNothing(f: Bytes, data: Bytes, lo: nat, hi: nat, a: nat, b: nat)
    requires lo < hi <= |data| && Agrees(f, data, a, b)
    ensures Agrees(WriteAt(f, data[lo..hi], lo), data, a, b)
  {
    var g := WriteAt(f, data[lo..hi], lo);
    forall x | a <= x < b
      ensures g[x] == data[x]
    {
      WriteAtIndex(f, data[lo..hi], lo, x);
      assert f[a..b][x - a] == data[a..b][x - a];
    }
    assert g[a..b] == data[a..b];
  }

  lemma WriteAtIndex(f: Bytes, piece: Bytes, off: nat, x: nat)
    requires piece != [] && x < |f|
    ensures |WriteAt(f, piece, off)| >= |f|
    ensures WriteAt(f, piece, off)[x] == if off <= x < off + |piece| then piece[x - off] else f[x]
  {
  }

  /** The bytes of chunk `i` are in the file, where they belong. */
  ghost predicate InPlace(chunks: seq<ChunkFile>, data: Bytes, f: Bytes, i: nat) {
    i < |chunks| && 0 <= Offset(chunks, i) <= Offset(chunks, i + 1) && Agrees(f, data, Offset(chunks, i), Offset(chunks, i + 1))
  }

  lemma AllSchedulable(remote: Remote, chunks: seq<ChunkFile>, data: Bytes, order: seq<nat>)
    requires Holds(remote, chunks, data) && forall j :: 0 <= j < |order| ==> order[j] < |chunks|
    ensures Schedulable(remote, chunks, order)
  {
    forall j | 0 <= j < |order|
      ensures Writable(remote, chunks, order[j])
    {
      HoldsAt(remote, chunks, data, order[j]);
    }
  }

  /** One more write puts its chunk in place and leaves the others where they are. */
  lemma WriteKeepsPlaces(remote: Remote, chunks: seq<ChunkFile>, data: Bytes, f: Bytes, i: nat)
    requires Holds(remote, chunks, data) && i < |chunks| && |f| <= |data|
    ensures Writable(remote, chunks, i)
    ensures var g := WriteAt(f, Fetch(remote, chunks[i]).value, Offset(chunks, i));
            && |g| <= |data|
            && InPlace(chunks, data, g, i)
            && forall j: nat :: InPlace(chunks, data, f, j) ==> InPlace(chunks, data, g, j)
  {
    HoldsAt(remote, chunks, data, i);
    var lo, hi := Offset(chunks, i), Offset(chunks, i + 1);
    WriteAtAgrees(f, data, lo, hi);
    forall j: nat | InPlace(chunks, data, f, j)
      ensures InPlace(chunks, data, WriteAt(f, data[lo..hi], lo), j)
    {
      WriteAtSpoilsNothing(f, data, lo, hi, Offset(chunks, j), Offset(chunks, j + 1));
    }
  }

  /** Each chunk written so far is in its place, and nothing is written past the end. */
  lemma {:induction false} AssembledSoFar(remote: Remote, chunks: seq<ChunkFile>, data: Bytes, order: seq<nat>)
    requires Holds(remote, chunks, data) && Schedulable(remote, chunks, order)
    ensures |Assembled(remote, chunks, order)| <= |data|
    ensures forall j :: 0 <= j < |order| ==> InPlace(chunks, data, Assembled(remote, chunks, order), order[j])
  {
    if order != [] {
      var n := |order| - 1;
      assert Writable(remote, chunks, order[n]);
      assert forall j :: 0 <= j < n ==> order[..n][j] == order[j];
      AssembledSoFar(remote, chunks, data, order[..n]);
      var f := Assembled(remote, chunks, order[..n]);
      WriteKeepsPlaces(remote, chunks, data, f, order[n]);
      hide InPlace, Holds, Writable;
      forall j | 0 <= j < |order|
        ensures InPlace(chunks, data, Assembled(remote, chunks, order), order[j])
      {
        if j < n {
          assert InPlace(chunks, data, f, order[..n][j]);
        }
      }
    }
  }

  /** When every chunk is in its place the file is the data. */
  lemma {:induction false} AllInPlace(chunks: seq<ChunkFile>, data: Bytes, f: Bytes, k: nat)
    requires k <= |chunks| && forall i: nat :: i < |chunks| ==> InPlace(chunks, data, f, i)
    ensures 0 <= Offset(chunks, k) && Agrees(f, data, 0, Offset(chunks, k))
  {
    if k != 0 {
      AllInPlace(chunks, data, f, k - 1);
      assert InPlace(chunks, data, f, k - 1);
      AgreesJoin(f, data, Offset(chunks, k - 1), Offset(chunks, k));
    }
  }

  lemma AgreesJoin(f: Bytes, data: Bytes, a: nat, b: nat)
    requires Agrees(f, data, 0, a) && Agrees(f, data, a, b)
    ensures Agrees(f, data, 0, b)
  {
    assert f[0..b] == f[0..a] + f[a..b];
    assert data[0..b] == data[0..a] + data[a..b];
  }

  /** Whatever the order in which the chunks arrive, the assembled file is the stored file. */
  lemma AssembledIsWhole(remote: Remote, chunks: seq<ChunkFile>, data: Bytes, order: seq<nat>)
    requires Holds(remote, chunks, data) && IsSchedule(order, |chunks|)
    ensures Schedulable(remote, chunks, order)
    ensures Assembled(remote, chunks, order) == data
  {
    AllSchedulable(remote, chunks, data, order);
    AssembledSoFar(remote, chunks, data, order);
    var f := Assembled(remote, chunks, order);
    forall i: nat | i < |chunks|
      ensures InPlace(chunks, data, f, i)
    {
      assert i in order;
      var j :| 0 <= j < |order| && order[j] == i;
      assert InPlace(chunks, data, f, order[j]);
    }
    AllInPlace(chunks, data, f, |chunks|);
    assert f == f[0..|data|] && data == data[0..|data|];
  }

  /**
   Upload, then download: whatever happened in between to make an upload's entry visible (failures,
   crashes, restarts with other chunk sizes), fetching its chunks in any order gives back the file.
   */
  lemma UploadThenDownload(env: Env, initial: Option<FileEntry>, states: seq<State>, acts: seq<Action>, k: nat, order: seq<nat>)
    requires IsHistory(env, initial, states, acts) && k < |states|
    requires Visible(states[k].mem) && states[k].mem != initial
    requires IsSchedule(order, |states[k].mem.value.chunks|)
    ensures Schedulable(states[k].remote, states[k].mem.value.chunks, order)
    ensures Assembled(states[k].remote, states[k].mem.value.chunks, order) == env.file
  {
    HistoryKeepsInv(env, initial, states, acts, k);
    AssembledIsWhole(states[k].remote, states[k].mem.value.chunks, env.file, order);
  }

  /** Where each chunk goes in the local file. */
  method ChunkOffsets(chunks: seq<ChunkFile>) returns (offsets: array<int>)
    ensures fresh(offsets) && offsets.Length == |chunks|
    ensures forall i :: 0 <= i < |chunks| ==> offsets[i] == Offset(chunks, i)
  {
    offsets := new int[|chunks|];
    var cur := 0;
    for i := 0 to |chunks|
      invariant cur == Offset(chunks, i)
      invariant forall j :: 0 <= j < i ==> offsets[j] == Offset(chunks, j)
    {
      offsets[i] := cur;
      cur := cur + chunks[i].size;
    }
  }

  /** One more write at the end of a schedule. */
  lemma AssembledStep(remote: Remote, chunks: seq<ChunkFile>, order: seq<nat>, j: nat)
    requires Schedulable(remote, chunks, order) && j < |order|
    ensures Schedulable(remote, chunks, order[..j]) && Schedulable(remote, chunks, order[..j + 1])
    ensures Writable(remote, chunks, order[j])
    ensures Assembled(remote, chunks, order[..j + 1])
            == WriteAt(Assembled(remote, chunks, order[..j]), Fetch(remote, chunks[order[j]]).value, Offset(chunks, order[j]))
  {
    assert order[..j + 1][..j] == order[..j];
    assert Writable(remote, chunks, order[j]);
    assert forall i :: 0 <= i <= j ==> order[..j + 1][i] == order[i];
  }

  /** Some chunk's message cannot be reached. */
  ghost predicate Unreachable(chunks: seq<ChunkFile>, online: set<MessageRef>) {
    exists i: nat :: i < |chunks| && chunks[i].Ref() !in online
  }

  /** Some chunk is never let through by the limiter. */
  ghost predicate NotLetThrough(chunks: seq<ChunkFile>, limitKBps: int) {
    exists i: nat :: i < |chunks| && !LetsThrough(limitKBps, chunks[i].size)
  }

  /** The limiter never lets chunk `i` through, and it is not cached either. */
  predicate Barred(chunks: seq<ChunkFile>, p: string, limitKBps: int, cached: set<string>, i: nat)
    requires i < |chunks|
  {
    !LetsThrough(limitKBps, chunks[i].size) && ChunkKey(p, i) !in cached
  }

  ghost predicate SomeBarred(chunks: seq<ChunkFile>, p: string, limitKBps: int, cached: set<string>) {
    exists i: nat :: i < |chunks| && Barred(chunks, p, limitKBps, cached, i)
  }

  /** A turn gives the chunk, or fails for a reason, and must wait for ever if its chunk was barred at the start. */
  ghost predicate TurnFits(chunks: seq<ChunkFile>, remote: Remote, p: string, limitKBps: int, before: set<string>,
                           online: set<MessageRef>, i: nat, r: Result<Bytes>)
    requires i < |chunks|
  {
    && (r.Ok? ==> r == Fetch(remote, chunks[i]))
    && (r.Err? ==> (r.error == MessageUnavailable && chunks[i].Ref() !in online)
                   || (r.error == WaitsForEver && !LetsThrough(limitKBps, chunks[i].size)))
    && (Barred(chunks, p, limitKBps, before, i) ==> r == Err(WaitsForEver))
    && (limitKBps <= 0 ==> r != Err(WaitsForEver))
  }

  /** All chunks are cached and have not expired. */
  ghost predicate AllLive(chunks: seq<ChunkFile>, p: string, index: Index, blobs: Blobs, now: int) {
    forall i: nat :: i < |chunks| ==> IsLive(index, blobs, ChunkKey(p, i), now)
  }

  /** One worker's turn. Chunks that were barred at the start are not cached meanwhile. */
  method FetchTurn(fs: FileSystem, p: string, i: nat, now: int, online: set<MessageRef>, ghost before: set<string>)
      returns (r: Result<Bytes>)
    requires fs.Valid() && p in fs.db.files && i < |fs.db.files[p].chunks|
    requires NoneLetIn(fs.db.files[p].chunks, p, fs.limitKBps, before, fs.cache.blobs.Keys)
    modifies fs.cache
    ensures fs.Valid()
    ensures NoneLetIn(fs.db.files[p].chunks, p, fs.limitKBps, before, fs.cache.blobs.Keys)
    ensures TurnFits(fs.db.files[p].chunks, fs.remote, p, fs.limitKBps, before, online, i, r)
    ensures old(fs.Live(ChunkKey(p, i), now)) ==> r.Ok? && fs.cache.index == old(fs.cache.index) && fs.cache.blobs == old(fs.cache.blobs)
  {
    ghost var cached := fs.cache.blobs.Keys;
    r := fs.FetchChunk(p, i, now, online);
    NoneLetInByFetch(fs.db.files[p].chunks, p, i, fs.limitKBps, cached, fs.cache.blobs.Keys, r);
    NoneLetInThen(fs.db.files[p].chunks, p, fs.limitKBps, before, cached, fs.cache.blobs.Keys);
  }

  /** What the turns so far have written, unless one of them failed. */
  ghost predicate Fetched(chunks: seq<ChunkFile>, remote: Remote, order: seq<nat>, out: Bytes, errors: nat, hangs: bool) {
    Schedulable(remote, chunks, order) && (errors == 0 && !hangs ==> out == Assembled(remote, chunks, order))
  }

  /** Why a turn so far has failed, and must have. */
  ghost predicate WhyNot(chunks: seq<ChunkFile>, p: string, limitKBps: int, before: set<string>, online: set<MessageRef>,
                         order: seq<nat>, errors: nat, hangs: bool) {
    && (errors > 0 ==> Unreachable(chunks, online))
    && (hangs ==> NotLetThrough(chunks, limitKBps) && 0 < limitKBps)
    && forall i :: i in order && i < |chunks| && Barred(chunks, p, limitKBps, before, i) ==> hangs
  }

  /**
   The workers' turns, in the order in which they get to their chunks. If one of them waits for the limiter for
   ever, so does the download; and one of them does if its chunk is barred.
   */
  method FetchAll(fs: FileSystem, p: string, order: seq<nat>, offsets: array<int>, now: int, online: set<MessageRef>)
      returns (out: Bytes, errors: nat, hangs: bool)
    requires fs.Valid() && p in fs.db.files && offsets.Length == |fs.db.files[p].chunks|
    requires Schedulable(fs.remote, fs.db.files[p].chunks, order)
    requires forall i :: 0 <= i < offsets.Length ==> offsets[i] == Offset(fs.db.files[p].chunks, i)
    modifies fs.cache
    ensures fs.Valid() && errors <= |order|
    ensures Fetched(fs.db.files[p].chunks, fs.remote, order, out, errors, hangs)
    ensures WhyNot(fs.db.files[p].chunks, p, fs.limitKBps, old(fs.cache.blobs.Keys), online, order, errors, hangs)
    ensures AllLive(fs.db.files[p].chunks, p, old(fs.cache.index), old(fs.cache.blobs), now) ==>
              errors == 0 && !hangs && fs.cache.index == old(fs.cache.index) && fs.cache.blobs == old(fs.cache.blobs)
  {
    var chunks := fs.db.files[p].chunks;
    ghost var before, index, blobs := fs.cache.blobs.Keys, fs.cache.index, fs.cache.blobs;
    ghost var allLive := AllLive(chunks, p, index, blobs, now);
    out, errors, hangs := [], 0, false;
    NoneLetInSame(chunks, p, fs.limitKBps, before);
    NoTurnYet(chunks, fs.remote, p, fs.limitKBps, before, online, order);
    hide *;
    for j := 0 to |order|
      invariant fs.Valid() && errors <= j
      invariant Fetched(chunks, fs.remote, order[..j], out, errors, hangs)
      invariant WhyNot(chunks, p, fs.limitKBps, before, online, order[..j], errors, hangs)
      invariant NoneLetIn(chunks, p, fs.limitKBps, before, fs.cache.blobs.Keys)
      invariant allLive ==> errors == 0 && !hangs && fs.cache.index == index && fs.cache.blobs == blobs
    {
      var i := order[j];
      Scheduled(fs.remote, chunks, order, j);
      if allLive {
        LiveAt(fs, chunks, p, now, i);
      }
      var piece := FetchTurn(fs, p, i, now, online, before);
      OneMoreTurn(chunks, fs.remote, p, fs.limitKBps, before, online, order[..j], i, out, errors, hangs, piece);
      if piece == Err(WaitsForEver) {
        hangs := true;
      } else if piece.Err? {
        errors := errors + 1;
      } else {
        out := WriteAt(out, piece.value, offsets[i]);
      }
    }
    TurnsOver(chunks, fs.remote, p, fs.limitKBps, before, online, order, out, errors, hangs);
  }

  lemma NoTurnYet(chunks: seq<ChunkFile>, remote: Remote, p: string, limitKBps: int, before: set<string>, online: set<MessageRef>,
                  order: seq<nat>)
    ensures Fetched(chunks, remote, order[..0], [], 0, false) && WhyNot(chunks, p, limitKBps, before, online, order[..0], 0, false)
  {
  }

  lemma LiveAt(fs: FileSystem, chunks: seq<ChunkFile>, p: string, now: int, i: nat)
    requires AllLive(chunks, p, fs.cache.index, fs.cache.blobs, now) && i < |chunks|
    ensures fs.Live(ChunkKey(p, i), now)
  {
  }

  lemma Scheduled(remote: Remote, chunks: seq<ChunkFile>, order: seq<nat>, j: nat)
    requires Schedulable(remote, chunks, order) && j < |order|
    ensures Writable(remote, chunks, order[j]) && order[j] < |chunks| && order[..j + 1] == order[..j] + [order[j]]
  {
  }

  lemma TurnsOver(chunks: seq<ChunkFile>, remote: Remote, p: string, limitKBps: int, before: set<string>, online: set<MessageRef>,
                  order: seq<nat>, out: Bytes, errors: nat, hangs: bool)
    requires Fetched(chunks, remote, order[..|order|], out, errors, hangs)
    requires WhyNot(chunks, p, limitKBps, before, online, order[..|order|], errors, hangs)
    ensures Fetched(chunks, remote, order, out, errors, hangs) && WhyNot(chunks, p, limitKBps, before, online, order, errors, hangs)
  {
    assert order[..|order|] == order;
  }

  lemma OneMoreTurn(chunks: seq<ChunkFile>, remote: Remote, p: string, limitKBps: int, before: set<string>, online: set<MessageRef>,
                    order: seq<nat>, i: nat, out: Bytes, errors: nat, hangs: bool, piece: Result<Bytes>)
    requires Fetched(chunks, remote, order, out, errors, hangs) && Writable(remote, chunks, i)
    requires WhyNot(chunks, p, limitKBps, before, online, order, errors, hangs)
    requires TurnFits(chunks, remote, p, limitKBps, before, online, i, piece)
    ensures Offset(chunks, i) >= 0
    ensures piece == Err(WaitsForEver) ==>
              Fetched(chunks, remote, order + [i], out, errors, true)
              && WhyNot(chunks, p, limitKBps, before, online, order + [i], errors, true)
    ensures piece.Err? && piece != Err(WaitsForEver) ==>
              Fetched(chunks, remote, order + [i], out, errors + 1, hangs)
              && WhyNot(chunks, p, limitKBps, before, online, order + [i], errors + 1, hangs)
    ensures piece.Ok? ==>
              Fetched(chunks, remote, order + [i], WriteAt(out, piece.value, Offset(chunks, i)), errors, hangs)
              && WhyNot(chunks, p, limitKBps, before, online, order + [i], errors, hangs)
  {
    assert forall k :: 0 <= k < |order| ==> (order + [i])[k] == order[k];
    AssembledStep(remote, chunks, order + [i], |order|);
    assert (order + [i])[..|order|] == order && (order + [i])[..|order| + 1] == order + [i];
  }

  /**
   Download a stored file. `order` is the order in which the workers get to their chunk; each of them
   reports at most one error.
   */
  method DownloadFile(fs: FileSystem, p: string, order: seq<nat>, now: int, online: set<MessageRef>)
      returns (r: Result<Bytes>, errors: nat)
    requires fs.Valid()
    requires p in fs.db.files ==> IsSchedule(order, |fs.db.files[p].chunks|)
    modifies fs.cache
    ensures fs.Valid()
    ensures p !in fs.db.files ==> r == Err(NotFound)
    ensures p in fs.db.files ==>
              var e := fs.db.files[p];
              if e.isFolder then r == Err(IsAFolder)
              else if e.incomplete then r == Err(StillUploading)
              else if e.chunks == [] then r == Err(NoChunks)
              else if r.Ok? then errors == 0 && r.value == fs.TextOf(p)
              else (r == Err(MessageUnavailable) && 0 < errors <= |order| && Unreachable(e.chunks, online))
                   || (r == Err(WaitsForEver) && NotLetThrough(e.chunks, fs.limitKBps))
    ensures p in fs.db.files && !fs.db.files[p].isFolder && !fs.db.files[p].incomplete
            && SomeBarred(fs.db.files[p].chunks, p, fs.limitKBps, old(fs.cache.blobs.Keys)) ==>
              r == Err(WaitsForEver)
    ensures fs.limitKBps <= 0 ==> r != Err(WaitsForEver)
    ensures p in fs.db.files && !fs.db.files[p].isFolder && !fs.db.files[p].incomplete && fs.db.files[p].chunks != []
            && AllLive(fs.db.files[p].chunks, p, old(fs.cache.index), old(fs.cache.blobs), now) ==>
              r == Ok(fs.TextOf(p)) && fs.cache.index == old(fs.cache.index) && fs.cache.blobs == old(fs.cache.blobs)
  {
    errors := 0;
    if p !in fs.db.files {
      return Err(NotFound), 0;
    }
    var e := fs.db.files[p];
    if e.isFolder {
      return Err(IsAFolder), 0;
    }
    if e.incomplete {
      return Err(StillUploading), 0;
    }
    if e.chunks == [] {
      return Err(NoChunks), 0;
    }
    fs.FileHolds(p);
    AssembledIsWhole(fs.remote, e.chunks, fs.TextOf(p), order);
    var offsets := ChunkOffsets(e.chunks);
    var out, hangs;
    out, errors, hangs := FetchAll(fs, p, order, offsets, now, online);
    r := if hangs then Err(WaitsForEver) else if errors > 0 then Err(MessageUnavailable) else Ok(out);
  }
}
