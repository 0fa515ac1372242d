/**
 What reads take from the cache, for any content of the cache, and exactly when that is right: after an upload
 over a stored file, and with stored names that look like cache keys.
 */
module ServedReads {
  import opened Content
  import opened Paths
  import opened Tree
  import opened CacheKeys
  import opened CachedReads

  /** Largest file that is ever cached as one blob. */
  const MAX_FULL_FILE_RAM_BUFFER := 24 * 1024 * 1024

  // ---------------------------------------------------------------- what reads consult

  /** Fetching chunk `i` of a stored file through the cache: a blob that is not empty is taken for the chunk. */
  function ServedChunk(files: Files, remote: Remote, blobs: Blobs, p: string, i: nat): Result<Bytes>
    requires p in files && i < |files[p].chunks|
  {
    var key := ChunkKey(p, i);
    if key in blobs && blobs[key] != [] then Ok(blobs[key]) else Fetch(remote, files[p].chunks[i])
  }

  /** Reading a range of a stored file from its whole-file blob: only of a small file, if the blob is long enough. */
  function ServedRange(files: Files, remote: Remote, blobs: Blobs, p: string, offset: nat, wanted: nat): Option<Bytes>
    requires p in files
  {
    if |Text(remote, files[p])| <= MAX_FULL_FILE_RAM_BUFFER && p in blobs && offset + wanted <= |blobs[p]|
    then Some(blobs[p][offset..offset + wanted]) else None
  }

  ghost predicate ChunksServeRight(files: Files, remote: Remote, blobs: Blobs, p: string)
    requires p in files
  {
    forall i: nat :: i < |files[p].chunks| ==> ServedChunk(files, remote, blobs, p, i) == Fetch(remote, files[p].chunks[i])
  }

  ghost predicate RangesServeRight(files: Files, remote: Remote, blobs: Blobs, p: string)
    requires p in files
  {
    forall offset: nat, wanted: nat :: offset + wanted <= |Text(remote, files[p])| ==>
      var r := ServedRange(files, remote, blobs, p, offset, wanted);
      r.None? || r == Some(Text(remote, files[p])[offset..offset + wanted])
  }

  /** Everything that any read of a stored file takes from the cache is what the file has. */
  ghost predicate ReadsRight(files: Files, remote: Remote, blobs: Blobs) {
    forall p :: p in files && !files[p].isFolder ==> ChunksServeRight(files, remote, blobs, p) && RangesServeRight(files, remote, blobs, p)
  }

  // ---------------------------------------------------------------- one path, one key

  predicate Agree(a: Bytes, b: Bytes) {
    a <= b || b <= a
  }

  /** What is cached under a path and its chunk keys is right for an entry stored there. */
  ghost predicate EntryServed(remote: Remote, blobs: Blobs, p: string, e: FileEntry) {
    !e.isFolder ==>
      && (p in blobs && |Text(remote, e)| <= MAX_FULL_FILE_RAM_BUFFER ==> Agree(blobs[p], Text(remote, e)))
      && forall i: nat :: i < |e.chunks| && ChunkKey(p, i) in blobs && blobs[ChunkKey(p, i)] != [] ==>
           Fetch(remote, e.chunks[i]) == Ok(blobs[ChunkKey(p, i)])
  }

  /** What a blob may be consulted for, as a whole file or as a chunk, it is right for. */
  ghost predicate KeyServed(files: Files, remote: Remote, key: string, data: Bytes) {
    && (key in files && !files[key].isFolder && |Text(remote, files[key])| <= MAX_FULL_FILE_RAM_BUFFER ==>
          Agree(data, Text(remote, files[key])))
    && forall p, i: nat :: p in files && !files[p].isFolder && i < |files[p].chunks| && key == ChunkKey(p, i) && data != [] ==>
         Fetch(remote, files[p].chunks[i]) == Ok(data)
  }

  lemma SlicesAgree(a: Bytes, b: Bytes, lo: nat, hi: nat)
    requires Agree(a, b) && lo <= hi <= |a| && hi <= |b|
    ensures a[lo..hi] == b[lo..hi]
  {
    assert forall i :: lo <= i < hi ==> a[i] == b[i];
  }

  /** All slices agree exactly when one of blob and text is the start of the other. */
  lemma RangesServeRightIff(files: Files, remote: Remote, blobs: Blobs, p: string)
    requires p in files
    ensures RangesServeRight(files, remote, blobs, p) <==>
            (p in blobs && |Text(remote, files[p])| <= MAX_FULL_FILE_RAM_BUFFER ==> Agree(blobs[p], Text(remote, files[p])))
  {
    var text := Text(remote, files[p]);
    if p in blobs && |text| <= MAX_FULL_FILE_RAM_BUFFER {
      var blob := blobs[p];
      if RangesServeRight(files, remote, blobs, p) {
        var m := if |blob| <= |text| then |blob| else |text|;
        assert ServedRange(files, remote, blobs, p, 0, m) == Some(blob[0..m]);
        assert blob[..m] == blob[0..m] == text[0..m] == text[..m];
      }
      if Agree(blob, text) {
        forall offset: nat, wanted: nat {:trigger ServedRange(files, remote, blobs, p, offset, wanted)} | offset + wanted <= |text|
          ensures var r := ServedRange(files, remote, blobs, p, offset, wanted);
                  r.None? || r == Some(text[offset..offset + wanted])
        {
          if offset + wanted <= |blob| {
            SlicesAgree(blob, text, offset, offset + wanted);
          }
        }
      }
    }
  }

  lemma EntryServedIff(files: Files, remote: Remote, blobs: Blobs, p: string)
    requires p in files
    ensures EntryServed(remote, blobs, p, files[p]) <==>
            files[p].isFolder || (ChunksServeRight(files, remote, blobs, p) && RangesServeRight(files, remote, blobs, p))
  {
    RangesServeRightIff(files, remote, blobs, p);
    if ChunksServeRight(files, remote, blobs, p) {
      forall i: nat | i < |files[p].chunks| && ChunkKey(p, i) in blobs && blobs[ChunkKey(p, i)] != []
        ensures Fetch(remote, files[p].chunks[i]) == Ok(blobs[ChunkKey(p, i)])
      {
        assert ServedChunk(files, remote, blobs, p, i) == Fetch(remote, files[p].chunks[i]);
      }
    }
  }

  /** Reads are right exactly when every stored path is served right. */
  lemma ReadsRightByPath(files: Files, remote: Remote, blobs: Blobs)
    ensures ReadsRight(files, remote, blobs) <==> forall p :: p in files ==> EntryServed(remote, blobs, p, files[p])
  {
    forall p | p in files
      ensures EntryServed(remote, blobs, p, files[p]) <==>
              files[p].isFolder || (ChunksServeRight(files, remote, blobs, p) && RangesServeRight(files, remote, blobs, p))
    {
      EntryServedIff(files, remote, blobs, p);
    }
  }

  /** Reads are right exactly when every blob is right for whatever it may be consulted for. */
  lemma ReadsRightByKey(files: Files, remote: Remote, blobs: Blobs)
    ensures ReadsRight(files, remote, blobs) <==> forall k :: k in blobs ==> KeyServed(files, remote, k, blobs[k])
  {
    ReadsRightByPath(files, remote, blobs);
    if forall p :: p in files ==> EntryServed(remote, blobs, p, files[p]) {
      forall k | k in blobs
        ensures KeyServed(files, remote, k, blobs[k])
      {
        assert k in files ==> EntryServed(remote, blobs, k, files[k]);
        forall p, i: nat | p in files && !files[p].isFolder && i < |files[p].chunks| && k == ChunkKey(p, i) && blobs[k] != []
          ensures Fetch(remote, files[p].chunks[i]) == Ok(blobs[k])
        {
          assert EntryServed(remote, blobs, p, files[p]);
        }
      }
    }
    if forall k :: k in blobs ==> KeyServed(files, remote, k, blobs[k]) {
      forall p | p in files
        ensures EntryServed(remote, blobs, p, files[p])
      {
        assert p in blobs ==> KeyServed(files, remote, p, blobs[p]);
        forall i: nat | !files[p].isFolder && i < |files[p].chunks| && ChunkKey(p, i) in blobs && blobs[ChunkKey(p, i)] != []
          ensures Fetch(remote, files[p].chunks[i]) == Ok(blobs[ChunkKey(p, i)])
        {
          assert KeyServed(files, remote, ChunkKey(p, i), blobs[ChunkKey(p, i)]);
        }
      }
    }
  }

  /** Caching one more blob keeps reads right exactly when the blob is right for whatever it may be consulted for. */
  lemma PutKeepsReadsIff(files: Files, remote: Remote, blobs: Blobs, key: string, data: Bytes)
    requires ReadsRight(files, remote, blobs)
    ensures ReadsRight(files, remote, blobs[key := data]) <==> KeyServed(files, remote, key, data)
  {
    var after := blobs[key := data];
    ReadsRightByKey(files, remote, blobs);
    ReadsRightByKey(files, remote, after);
    assert key in after && after[key] == data;
  }

  lemma DropKeepsReads(files: Files, remote: Remote, blobs: Blobs, fewer: Blobs)
    requires ReadsRight(files, remote, blobs)
    requires forall k :: k in fewer ==> k in blobs && fewer[k] == blobs[k]
    ensures ReadsRight(files, remote, fewer)
  {
    ReadsRightByKey(files, remote, blobs);
    ReadsRightByKey(files, remote, fewer);
  }

  /** A right cache, with no stored path as a stored chunk's key, serves every read right. */
  lemma SoundServes(files: Files, remote: Remote, blobs: Blobs)
    requires Sound(files, remote, blobs) && NoSharedKeys(files)
    ensures ReadsRight(files, remote, blobs)
  {
    ReadsRightByPath(files, remote, blobs);
    forall p | p in files
      ensures EntryServed(remote, blobs, p, files[p])
    {
      if p in blobs {
        WholeHit(files, remote, blobs, p);
      }
      forall i: nat | i < |files[p].chunks| && ChunkKey(p, i) in blobs
        ensures Fetch(remote, files[p].chunks[i]) == Ok(blobs[ChunkKey(p, i)])
      {
        ChunkHit(files, remote, blobs, p, i);
      }
    }
  }

  // ---------------------------------------------------------------- the same by digests

  /** A stored record tells its chunk by its digest. */
  lemma DigestTellsChunk(remote: Remote, e: FileEntry, i: nat, data: Bytes)
    requires EntryReadable(remote, e) && i < |e.chunks|
    ensures Fetch(remote, e.chunks[i]) == Ok(data) <==> e.chunks[i].hash == ChunkHash(data)
  {
    ReadableDecodes(remote, e);
    assert SizeRight(remote, e.chunks[i]);
    ChunkHashInjective(Fetch(remote, e.chunks[i]).value, data);
  }

  lemma TextLength(remote: Remote, e: FileEntry)
    requires EntryReadable(remote, e)
    ensures |Text(remote, e)| == TotalSize(e.chunks)
  {
  }

  /** Every record that is stored under the key, if any, has the digest. */
  ghost predicate RecordsAre(files: Files, key: string, digest: string) {
    forall p, i: nat :: p in files && !files[p].isFolder && i < |files[p].chunks| && key == ChunkKey(p, i) ==>
      files[p].chunks[i].hash == digest
  }

  /** The file that is stored under the key, if there is one and it is small, is the start of the data or the data of it. */
  ghost predicate FileAgrees(files: Files, remote: Remote, key: string, data: Bytes) {
    key in files && !files[key].isFolder && TotalSize(files[key].chunks) <= MAX_FULL_FILE_RAM_BUFFER ==> Agree(data, Text(remote, files[key]))
  }

  lemma KeyServedByDigest(files: Files, remote: Remote, key: string, data: Bytes)
    requires Readable(files, remote)
    ensures KeyServed(files, remote, key, data) <==>
            FileAgrees(files, remote, key, data) && (data != [] ==> RecordsAre(files, key, ChunkHash(data)))
  {
    if key in files {
      assert EntryReadable(remote, files[key]);
      TextLength(remote, files[key]);
    }
    forall p, i: nat | p in files && i < |files[p].chunks| && key == ChunkKey(p, i)
      ensures Fetch(remote, files[p].chunks[i]) == Ok(data) <==> files[p].chunks[i].hash == ChunkHash(data)
    {
      assert EntryReadable(remote, files[p]);
      DigestTellsChunk(remote, files[p], i, data);
    }
  }

  /** What is cached under a path and its chunk keys agrees with an entry: chunk blobs by digest, the whole blob byte by byte. */
  ghost predicate EntryFits(remote: Remote, blobs: Blobs, p: string, e: FileEntry) {
    !e.isFolder ==>
      && (p in blobs && TotalSize(e.chunks) <= MAX_FULL_FILE_RAM_BUFFER ==> Agree(blobs[p], Text(remote, e)))
      && forall i: nat :: i < |e.chunks| && ChunkKey(p, i) in blobs && blobs[ChunkKey(p, i)] != [] ==>
           e.chunks[i].hash == ChunkHash(blobs[ChunkKey(p, i)])
  }

  lemma EntryServedByDigest(remote: Remote, blobs: Blobs, p: string, e: FileEntry)
    requires EntryReadable(remote, e)
    ensures EntryServed(remote, blobs, p, e) <==> EntryFits(remote, blobs, p, e)
  {
    TextLength(remote, e);
    forall i: nat | i < |e.chunks| && ChunkKey(p, i) in blobs
      ensures Fetch(remote, e.chunks[i]) == Ok(blobs[ChunkKey(p, i)]) <==> e.chunks[i].hash == ChunkHash(blobs[ChunkKey(p, i)])
    {
      DigestTellsChunk(remote, e, i, blobs[ChunkKey(p, i)]);
    }
  }

  // ---------------------------------------------------------------- caches that reads build

  /** What a read of a stored file leaves under a key: one of its chunks, or all of a small file that is not empty. */
  ghost predicate BuiltKey(files: Files, remote: Remote, key: string, data: Bytes) {
    || (exists p, i: nat :: p in files && !files[p].isFolder && i < |files[p].chunks| && key == ChunkKey(p, i)
                            && Fetch(remote, files[p].chunks[i]) == Ok(data))
    || (key in files && !files[key].isFolder && data == Text(remote, files[key]) && 0 < |data| <= MAX_FULL_FILE_RAM_BUFFER)
  }

  ghost predicate Built(files: Files, remote: Remote, blobs: Blobs) {
    forall k :: k in blobs ==> BuiltKey(files, remote, k, blobs[k])
  }

  lemma OneChunkBuilt(files: Files, remote: Remote, p: string, i: nat)
    requires p in files && !files[p].isFolder && i < |files[p].chunks| && Fetch(remote, files[p].chunks[i]).Ok?
    ensures Built(files, remote, map[ChunkKey(p, i) := Fetch(remote, files[p].chunks[i]).value])
  {
    var data := Fetch(remote, files[p].chunks[i]).value;
    assert BuiltKey(files, remote, ChunkKey(p, i), data);
  }

  lemma WholeBuilt(files: Files, remote: Remote, p: string)
    requires p in files && !files[p].isFolder && 0 < |Text(remote, files[p])| <= MAX_FULL_FILE_RAM_BUFFER
    ensures Built(files, remote, map[p := Text(remote, files[p])])
  {
    assert BuiltKey(files, remote, p, Text(remote, files[p]));
  }

  lemma ChunkIsNotEmpty(remote: Remote, e: FileEntry, i: nat)
    requires EntryReadable(remote, e) && i < |e.chunks|
    ensures Fetch(remote, e.chunks[i]).Ok? && Fetch(remote, e.chunks[i]).value != []
  {
    ReadableDecodes(remote, e);
    assert SizeRight(remote, e.chunks[i]);
  }

  // ---------------------------------------------------------------- names that are cache keys

  ghost predicate PlainFolderEntries(files: Files) {
    forall p :: p in files && files[p].isFolder ==> files[p].chunks == []
  }

  /**
   The path `ChunkKey(p, i)` is stored too, and no read of it or of chunk `i` can be misled: it is a folder, or
   empty, or never cached whole, or the same bytes.
   */
  predicate SharesHarmlessly(files: Files, remote: Remote, p: string, i: nat)
    requires p in files && i < |files[p].chunks| && ChunkKey(p, i) in files
  {
    var q := files[ChunkKey(p, i)];
    var text := Text(remote, q);
    q.isFolder || text == [] || |text| > MAX_FULL_FILE_RAM_BUFFER || Fetch(remote, files[p].chunks[i]) == Ok(text)
  }

  ghost predicate AllShareHarmlessly(files: Files, remote: Remote) {
    forall p, i: nat :: p in files && i < |files[p].chunks| && ChunkKey(p, i) in files ==> SharesHarmlessly(files, remote, p, i)
  }

  /** Whatever reads have cached, all reads are right exactly when every shared key is harmless. */
  lemma SharedKeysMisleadIff(files: Files, remote: Remote)
    requires Readable(files, remote) && PlainFolderEntries(files)
    ensures (forall blobs :: Built(files, remote, blobs) ==> ReadsRight(files, remote, blobs)) <==> AllShareHarmlessly(files, remote)
  {
    if AllShareHarmlessly(files, remote) {
      forall blobs | Built(files, remote, blobs)
        ensures ReadsRight(files, remote, blobs)
      {
        ReadsRightByKey(files, remote, blobs);
        forall k | k in blobs
          ensures KeyServed(files, remote, k, blobs[k])
        {
          HarmlessKeyServed(files, remote, k, blobs[k]);
        }
      }
    }
    if forall blobs :: Built(files, remote, blobs) ==> ReadsRight(files, remote, blobs) {
      forall p, i: nat | p in files && i < |files[p].chunks| && ChunkKey(p, i) in files
        ensures SharesHarmlessly(files, remote, p, i)
      {
        WholeForChunk(files, remote, p, i);
      }
    }
  }

  lemma HarmlessKeyServed(files: Files, remote: Remote, key: string, data: Bytes)
    requires Readable(files, remote) && AllShareHarmlessly(files, remote) && BuiltKey(files, remote, key, data)
    ensures KeyServed(files, remote, key, data)
  {
    if p, i: nat :| p in files && !files[p].isFolder && i < |files[p].chunks| && key == ChunkKey(p, i) {
      assert key in files ==> SharesHarmlessly(files, remote, p, i);
      forall q, j: nat | q in files && j < |files[q].chunks| && key == ChunkKey(q, j)
        ensures q == p && j == i
      {
        ChunkKeyInjective(p, i, q, j);
      }
    }
  }

  /** With the file cached whole under the shared key, the chunk is served from it. */
  lemma WholeForChunk(files: Files, remote: Remote, p: string, i: nat)
    requires PlainFolderEntries(files) && p in files && i < |files[p].chunks| && ChunkKey(p, i) in files
    requires forall blobs :: Built(files, remote, blobs) ==> ReadsRight(files, remote, blobs)
    ensures SharesHarmlessly(files, remote, p, i)
  {
    var key := ChunkKey(p, i);
    var text := Text(remote, files[key]);
    if !files[key].isFolder && 0 < |text| <= MAX_FULL_FILE_RAM_BUFFER {
      var blobs: Blobs := map[key := text];
      WholeBuilt(files, remote, key);
      assert ReadsRight(files, remote, blobs);
      assert ChunksServeRight(files, remote, blobs, p);
      assert ServedChunk(files, remote, blobs, p, i) == Ok(text);
    }
  }

  // ---------------------------------------------------------------- storing over a stored file

  /** As far as both versions go, their chunks have the same contents. */
  ghost predicate CommonStart(remote: Remote, e: FileEntry, e': FileEntry) {
    forall i :: 0 <= i < |e.chunks| && i < |e'.chunks| ==> Fetch(remote, e'.chunks[i]) == Fetch(remote, e.chunks[i])
  }

  lemma CommonStartAgree(remote: Remote, e: FileEntry, e': FileEntry)
    requires EntryReadable(remote, e) && EntryReadable(remote, e') && CommonStart(remote, e, e')
    ensures Agree(Text(remote, e), Text(remote, e'))
  {
    ReadableDecodes(remote, e);
    ReadableDecodes(remote, e');
    if |e.chunks| <= |e'.chunks| {
      SameStartDecodes(remote, e.chunks, e'.chunks);
    } else {
      SameStartDecodes(remote, e'.chunks, e.chunks);
    }
  }

  /**
   Upload never clears the cache. After storing a file over another, whatever reads had cached before, all reads
   are right exactly when, as far as both versions go, their chunks have the same contents.
   */
  lemma OverwriteReadsRightIff(files: Files, remote: Remote, p: string, e: FileEntry)
    requires p in files && !files[p].isFolder && !e.isFolder && EntryReadable(remote, files[p]) && EntryReadable(remote, e)
    requires NoSharedKeys(files) && NoSharedKeys(files[p := e])
    ensures (forall blobs :: Built(files, remote, blobs) ==> ReadsRight(files[p := e], remote, blobs))
            <==> CommonStart(remote, files[p], e)
  {
    var after := files[p := e];
    if CommonStart(remote, files[p], e) {
      forall blobs | Built(files, remote, blobs)
        ensures ReadsRight(after, remote, blobs)
      {
        BuiltIsSound(files, remote, blobs);
        CommonStartServes(files, remote, blobs, p, e);
      }
    }
    if forall blobs :: Built(files, remote, blobs) ==> ReadsRight(after, remote, blobs) {
      forall i: nat | i < |files[p].chunks| && i < |e.chunks|
        ensures Fetch(remote, e.chunks[i]) == Fetch(remote, files[p].chunks[i])
      {
        OldChunkServed(files, remote, p, e, i);
      }
    }
  }

  /** A cache with one chunk of the old version in it serves that chunk. */
  lemma OldChunkServed(files: Files, remote: Remote, p: string, e: FileEntry, i: nat)
    requires p in files && !files[p].isFolder && EntryReadable(remote, files[p])
    requires !e.isFolder && i < |files[p].chunks| && i < |e.chunks|
    ensures Fetch(remote, files[p].chunks[i]).Ok?
    ensures var blobs: Blobs := map[ChunkKey(p, i) := Fetch(remote, files[p].chunks[i]).value];
            && Built(files, remote, blobs)
            && ServedChunk(files[p := e], remote, blobs, p, i) == Fetch(remote, files[p].chunks[i])
            && (ReadsRight(files[p := e], remote, blobs) ==> Fetch(remote, e.chunks[i]) == Fetch(remote, files[p].chunks[i]))
  {
    ChunkIsNotEmpty(remote, files[p], i);
    OneChunkBuilt(files, remote, p, i);
    var blobs: Blobs := map[ChunkKey(p, i) := Fetch(remote, files[p].chunks[i]).value];
    var after := files[p := e];
    assert ReadsRight(after, remote, blobs) ==> ChunksServeRight(after, remote, blobs, p);
  }

  lemma BuiltIsSound(files: Files, remote: Remote, blobs: Blobs)
    requires Built(files, remote, blobs)
    ensures Sound(files, remote, blobs)
  {
    forall k | k in blobs
      ensures KeyRight(files, remote, k, blobs[k])
    {
      if p, i: nat :| p in files && !files[p].isFolder && i < |files[p].chunks| && k == ChunkKey(p, i)
                      && Fetch(remote, files[p].chunks[i]) == Ok(blobs[k]) {
        assert ChunkRight(files, remote, p, i, blobs[k]);
      } else {
        assert WholeRight(files, remote, k, blobs[k]);
      }
    }
  }

  /** As far as both versions go they are the same: a cache that was right for the old one serves the new one right. */
  lemma CommonStartServes(files: Files, remote: Remote, blobs: Blobs, p: string, e: FileEntry)
    requires p in files && EntryReadable(remote, files[p]) && EntryReadable(remote, e)
    requires NoSharedKeys(files) && NoSharedKeys(files[p := e])
    requires Sound(files, remote, blobs) && CommonStart(remote, files[p], e)
    ensures ReadsRight(files[p := e], remote, blobs)
  {
    var after := files[p := e];
    CommonStartAgree(remote, files[p], e);
    ReadsRightByKey(after, remote, blobs);
    forall k | k in blobs
      ensures KeyServed(after, remote, k, blobs[k])
    {
      KeyServedAfterStore(files, remote, k, blobs[k], p, e);
    }
  }

  lemma KeyServedAfterStore(files: Files, remote: Remote, key: string, data: Bytes, p: string, e: FileEntry)
    requires p in files && CommonStart(remote, files[p], e) && Agree(Text(remote, files[p]), Text(remote, e))
    requires NoSharedKeys(files) && NoSharedKeys(files[p := e])
    requires KeyRight(files, remote, key, data)
    ensures KeyServed(files[p := e], remote, key, data)
  {
    var after := files[p := e];
    if WholeRight(files, remote, key, data) {
      assert !IsStoredChunkKey(after, key);
      forall r, j: nat | r in after && j < |after[r].chunks|
        ensures key != ChunkKey(r, j)
      {
      }
      assert key == p ==> Agree(data, Text(remote, e));
    } else {
      var q, i: nat :| key == ChunkKey(q, i) && ChunkRight(files, remote, q, i, data);
      assert IsStoredChunkKey(files, key);
      assert key !in files;
      forall r, j: nat | r in after && j < |after[r].chunks| && key == ChunkKey(r, j)
        ensures Fetch(remote, after[r].chunks[j]) == Ok(data)
      {
        ChunkKeyInjective(q, i, r, j);
      }
    }
  }

  /** Every version that continues the stored one, as later steps of an upload do, now or when more messages are there. */
  ghost predicate ContinuesWith(files: Files, remote: Remote, p: string, e: FileEntry, remote': Remote, e': FileEntry) {
    && Grows(remote, remote') && !e'.isFolder && EntryReadable(remote', e') && SameStart(remote', e, e')
    && NoSharedKeys(files[p := e'])
  }

  /**
   After storing a file over another, whatever reads had cached before, all reads are right and stay right however
   the new version is continued exactly when the new version begins with all chunks of the old one.
   */
  lemma StaysRightIff(files: Files, remote: Remote, p: string, e: FileEntry)
    requires p in files && !files[p].isFolder && !e.isFolder && Readable(files, remote) && EntryReadable(remote, e)
    requires NoSharedKeys(files) && NoSharedKeys(files[p := e])
    ensures (forall blobs, remote', e' :: Built(files, remote, blobs) && ContinuesWith(files, remote, p, e, remote', e') ==>
               ReadsRight(files[p := e'], remote', blobs))
            <==> SameStart(remote, files[p], e)
  {
    if SameStart(remote, files[p], e) {
      forall blobs, remote', e' | Built(files, remote, blobs) && ContinuesWith(files, remote, p, e, remote', e')
        ensures ReadsRight(files[p := e'], remote', blobs)
      {
        ContinuationServes(files, remote, blobs, p, e, remote', e');
      }
    }
    if forall blobs, remote', e' :: Built(files, remote, blobs) && ContinuesWith(files, remote, p, e, remote', e') ==>
         ReadsRight(files[p := e'], remote', blobs) {
      assert ContinuesWith(files, remote, p, e, remote, e);
      OverwriteReadsRightIff(files, remote, p, e);
      var n := |e.chunks|;
      if n < |files[p].chunks| {
        ChunkIsNotEmpty(remote, files[p], n);
        var remote', e' := OtherNextChunk(files, remote, p, e);
        OneChunkBuilt(files, remote, p, n);
        OldChunkServed(files, remote', p, e', n);
      }
    }
  }

  lemma BuiltGrows(files: Files, remote: Remote, remote': Remote, blobs: Blobs)
    requires Readable(files, remote) && Built(files, remote, blobs) && Grows(remote, remote')
    ensures Built(files, remote', blobs)
  {
    SoundMonotone(files, remote, remote', map[]);
    forall k | k in blobs
      ensures BuiltKey(files, remote', k, blobs[k])
    {
      assert BuiltKey(files, remote, k, blobs[k]);
    }
  }

  /** A chunk that can be fetched stays what it is when more messages are there. */
  lemma FetchGrows(remote: Remote, remote': Remote, e: FileEntry, i: nat)
    requires EntryReadable(remote, e) && Grows(remote, remote') && i < |e.chunks|
    ensures Fetch(remote', e.chunks[i]) == Fetch(remote, e.chunks[i])
  {
    ChunkIsNotEmpty(remote, e, i);
  }

  lemma ContinuationServes(files: Files, remote: Remote, blobs: Blobs, p: string, e: FileEntry, remote': Remote, e': FileEntry)
    requires p in files && !files[p].isFolder && !e.isFolder && Readable(files, remote) && EntryReadable(remote, e)
    requires NoSharedKeys(files) && SameStart(remote, files[p], e)
    requires Built(files, remote, blobs) && ContinuesWith(files, remote, p, e, remote', e')
    ensures ReadsRight(files[p := e'], remote', blobs)
  {
    SoundMonotone(files, remote, remote', map[]);
    BuiltGrows(files, remote, remote', blobs);
    forall i: nat | i < |files[p].chunks| && i < |e'.chunks|
      ensures Fetch(remote', e'.chunks[i]) == Fetch(remote', files[p].chunks[i])
    {
      FetchGrows(remote, remote', files[p], i);
      FetchGrows(remote, remote', e, i);
    }
    BuiltIsSound(files, remote', blobs);
    CommonStartServes(files, remote', blobs, p, e');
  }

  /** A version with fewer chunks can be continued with a chunk that the old one does not have. */
  lemma OtherNextChunk(files: Files, remote: Remote, p: string, e: FileEntry) returns (remote': Remote, e': FileEntry)
    requires p in files && !e.isFolder && Readable(files, remote) && EntryReadable(remote, e)
    requires NoSharedKeys(files) && NoSharedKeys(files[p := e]) && |e.chunks| < |files[p].chunks|
    ensures ContinuesWith(files, remote, p, e, remote', e') && |e'.chunks| == |e.chunks| + 1
    ensures EntryReadable(remote', files[p])
    ensures Fetch(remote', files[p].chunks[|e.chunks|]) == Fetch(remote, files[p].chunks[|e.chunks|]) != Fetch(remote', e'.chunks[|e.chunks|])
  {
    var n := |e.chunks|;
    remote', e' := AppendByte(remote, e, if Fetch(remote, files[p].chunks[n]) == Ok([0]) then 1 else 0);
    SoundMonotone(files, remote, remote', map[]);
    FetchGrows(remote, remote', files[p], n);
    NextKeyNotShared(files, p, e, e');
  }

  /** Any file can be continued by a chunk of one byte, in a new message. */
  lemma AppendByte(remote: Remote, e: FileEntry, b: byte) returns (remote': Remote, e': FileEntry)
    requires EntryReadable(remote, e)
    ensures Grows(remote, remote') && EntryReadable(remote', e') && SameStart(remote', e, e') && e'.isFolder == e.isFolder
    ensures |e'.chunks| == |e.chunks| + 1 && Fetch(remote', e'.chunks[|e.chunks|]) == Ok([b])
    ensures Text(remote', e') == Text(remote, e) + [b]
  {
    var id := FreshId(0, remote.Keys);
    remote' := remote[MessageRef(0, id) := Raw([b])];
    e' := e.(chunks := e.chunks + [ChunkFile(0, id, 1, "", ChunkHash([b]))]);
    ChunkHashInjective([b], [b]);
    AppendedReadable(remote, remote', e, e', [b]);
  }

  lemma AppendedReadable(remote: Remote, remote': Remote, e: FileEntry, e': FileEntry, data: Bytes)
    requires EntryReadable(remote, e) && Grows(remote, remote') && |e'.chunks| == |e.chunks| + 1 && e'.chunks[..|e.chunks|] == e.chunks
    requires Fetch(remote', e'.chunks[|e.chunks|]) == Ok(data)
    requires e'.chunks[|e.chunks|].size == |data| && 0 < |data| && e'.chunks[|e.chunks|].hash != ""
    ensures EntryReadable(remote', e') && SameStart(remote', e, e') && Text(remote', e') == Text(remote, e) + data
  {
    ReadableDecodes(remote, e);
    HoldsMonotone(remote, remote', e.chunks, Text(remote, e));
    HoldsIffDecodes(remote', e.chunks, Text(remote, e));
    assert forall i :: 0 <= i < |e.chunks| ==> e'.chunks[i] == e'.chunks[..|e.chunks|][i];
    var all := Text(remote, e) + data;
    assert Decode(remote', e'.chunks) == Ok(all);
    assert SizesRight(remote', e'.chunks);
    HoldsIffDecodes(remote', e'.chunks, all);
  }

  lemma NextKeyNotShared(files: Files, p: string, e: FileEntry, e': FileEntry)
    requires p in files && NoSharedKeys(files) && NoSharedKeys(files[p := e])
    requires |e.chunks| < |files[p].chunks| && |e'.chunks| == |e.chunks| + 1
    ensures NoSharedKeys(files[p := e'])
  {
    var after := files[p := e'];
    forall k | k in after
      ensures !IsStoredChunkKey(after, k)
    {
      assert k in files && k in files[p := e];
      forall q, i: nat | q in after && i < |after[q].chunks|
        ensures k != ChunkKey(q, i)
      {
        if q == p && i == |e.chunks| {
          assert !IsStoredChunkKey(files, k);
        } else {
          assert !IsStoredChunkKey(files[p := e], k);
        }
      }
    }
  }

  // ---------------------------------------------------------------- going back to a shorter version

  /**
   When the stored chunk list goes back to a start of itself, as after a crash, a right cache stays right exactly
   when nothing is cached of the dropped chunks.
   */
  lemma ShrinkKeepsSoundIff(files: Files, remote: Remote, blobs: Blobs, p: string, e: FileEntry)
    requires Sound(files, remote, blobs) && NoSharedKeys(files) && p in files && EntryReadable(remote, e)
    requires e.chunks <= files[p].chunks
    ensures Sound(files[p := e], remote, blobs) <==>
            && (p in blobs ==> blobs[p] <= Text(remote, e))
            && forall i: nat :: |e.chunks| <= i < |files[p].chunks| ==> ChunkKey(p, i) !in blobs
  {
    var after := files[p := e];
    ShrinkSharesNoKeys(files, p, e);
    if Sound(after, remote, blobs) {
      if p in blobs {
        WholeHit(after, remote, blobs, p);
      }
      forall i: nat | |e.chunks| <= i < |files[p].chunks|
        ensures ChunkKey(p, i) !in blobs
      {
        DroppedChunkUncached(files, remote, blobs, p, e, i);
      }
    }
    if (p in blobs ==> blobs[p] <= Text(remote, e)) && forall i: nat :: |e.chunks| <= i < |files[p].chunks| ==> ChunkKey(p, i) !in blobs {
      forall k | k in blobs
        ensures KeyRight(after, remote, k, blobs[k])
      {
        assert KeyRight(files, remote, k, blobs[k]);
        if k != p {
          OwnerIsCached(files, remote, k, blobs[k]);
          KeyRightAfterShrink(files, remote, k, blobs[k], p, e);
        } else {
          assert WholeRight(after, remote, p, blobs[p]);
        }
      }
    }
  }

  lemma ShrinkSharesNoKeys(files: Files, p: string, e: FileEntry)
    requires NoSharedKeys(files) && p in files && e.chunks <= files[p].chunks
    ensures NoSharedKeys(files[p := e])
  {
    var after := files[p := e];
    forall k | k in after
      ensures !IsStoredChunkKey(after, k)
    {
      assert k in files;
      assert !IsStoredChunkKey(files, k);
    }
  }

  lemma DroppedChunkUncached(files: Files, remote: Remote, blobs: Blobs, p: string, e: FileEntry, i: nat)
    requires NoSharedKeys(files) && p in files && |e.chunks| <= i < |files[p].chunks| && Sound(files[p := e], remote, blobs)
    ensures ChunkKey(p, i) !in blobs
  {
    var key := ChunkKey(p, i);
    assert IsStoredChunkKey(files, key) && key !in files;
    if key in blobs {
      assert KeyRight(files[p := e], remote, key, blobs[key]);
      KeyOfOneChunk(files[p := e], remote, p, i, blobs[key]);
    }
  }

  lemma KeyRightAfterShrink(files: Files, remote: Remote, key: string, data: Bytes, p: string, e: FileEntry)
    requires KeyRight(files, remote, key, data) && p in files && key != p && e.chunks <= files[p].chunks
    requires forall i: nat :: |e.chunks| <= i < |files[p].chunks| ==> ChunkKey(p, i) != key
    ensures KeyRight(files[p := e], remote, key, data)
  {
    if !WholeRight(files, remote, key, data) {
      var q, i: nat :| key == ChunkKey(q, i) && ChunkRight(files, remote, q, i, data);
      assert ChunkRight(files[p := e], remote, q, i, data);
    }
  }

  /** Whatever is cached of the dropped chunks, all reads stay right. */
  lemma ShrinkKeepsReads(files: Files, remote: Remote, blobs: Blobs, p: string, e: FileEntry)
    requires Sound(files, remote, blobs) && NoSharedKeys(files) && p in files && EntryReadable(remote, files[p]) && EntryReadable(remote, e)
    requires e.chunks <= files[p].chunks
    ensures ReadsRight(files[p := e], remote, blobs)
  {
    ShrinkSharesNoKeys(files, p, e);
    CommonStartServes(files, remote, blobs, p, e);
  }

  // ---------------------------------------------------------------- concrete inputs

  /** A file of one byte, stored as message `id`. */
  function OneByteFile(id: int, b: byte): FileEntry {
    FileEntry([ChunkFile(1, id, 1, "", ChunkHash([b]))], 0, "", false, false)
  }

  function TwoMessages(): Remote {
    map[MessageRef(1, 1) := Raw([1]), MessageRef(1, 2) := Raw([2])]
  }

  lemma OneByteFileReads(b: byte, id: int)
    requires (b == 1 && id == 1) || (b == 2 && id == 2)
    ensures EntryReadable(TwoMessages(), OneByteFile(id, b)) && Text(TwoMessages(), OneByteFile(id, b)) == [b]
    ensures Fetch(TwoMessages(), OneByteFile(id, b).chunks[0]) == Ok([b])
  {
    var e := OneByteFile(id, b);
    ChunkHashInjective([b], [b]);
    assert e.chunks[..0] == [];
    assert Fetch(TwoMessages(), e.chunks[0]) == Ok([b]);
    assert Decode(TwoMessages(), e.chunks) == Ok([] + [b]);
    assert [] + [b] == [b];
    HoldsIffDecodes(TwoMessages(), e.chunks, [b]);
  }

  lemma FirstChunkKey()
    ensures ChunkKey("a", 0) == "a.chunk.0"
  {
    assert Decimal(0) == "0";
  }

  /** "a" with the byte 1 is read, then overwritten by the byte 2: the next read still gives 1. */
  lemma OverwriteServesOldByte()
    ensures var files: Files := map["a" := OneByteFile(1, 1)];
            var blobs: Blobs := map["a.chunk.0" := [1]];
            var after := files["a" := OneByteFile(2, 2)];
            && Readable(files, TwoMessages()) && Readable(after, TwoMessages()) && Built(files, TwoMessages(), blobs)
            && ServedChunk(after, TwoMessages(), blobs, "a", 0) == Ok([1]) && Text(TwoMessages(), after["a"]) == [2]
  {
    OneByteFileReads(1, 1);
    OneByteFileReads(2, 2);
    FirstChunkKey();
    var files: Files := map["a" := OneByteFile(1, 1)];
    OneChunkBuilt(files, TwoMessages(), "a", 0);
  }

  /** "a" holds the byte 1 and "a.chunk.0" the byte 2: after reading the second, the first reads as 2. */
  lemma SharedKeyServesOtherFile()
    ensures var files: Files := map["a" := OneByteFile(1, 1), "a.chunk.0" := OneByteFile(2, 2)];
            var blobs: Blobs := map["a.chunk.0" := [2]];
            && Readable(files, TwoMessages()) && Built(files, TwoMessages(), blobs)
            && ServedChunk(files, TwoMessages(), blobs, "a", 0) == Ok([2]) && Text(TwoMessages(), files["a"]) == [1]
  {
    OneByteFileReads(1, 1);
    OneByteFileReads(2, 2);
    FirstChunkKey();
    var files: Files := map["a" := OneByteFile(1, 1), "a.chunk.0" := OneByteFile(2, 2)];
    WholeBuilt(files, TwoMessages(), "a.chunk.0");
  }
}
