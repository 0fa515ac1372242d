/** What may be in the cache so that reading through it is the same as reading the chunks. */
module CachedReads {
  import opened Content
  import opened Paths
  import opened Tree
  import opened Rename
  import opened CacheKeys

  type Blobs = map<string, Bytes>

  /** The bytes of a stored file. */
  function Text(remote: Remote, e: FileEntry): Bytes {
    var d := Decode(remote, e.chunks);
    if d.Ok? then d.value else []
  }

  /** Every stored entry decodes, chunk by chunk, with the recorded sizes. */
  ghost predicate Readable(files: Files, remote: Remote) {
    forall p :: p in files ==> EntryReadable(remote, files[p])
  }

  ghost predicate EntryReadable(remote: Remote, e: FileEntry) {
    Holds(remote, e.chunks, Text(remote, e))
  }

  /** `key` is the cache key of a chunk of a stored file. */
  ghost predicate IsStoredChunkKey(files: Files, key: string) {
    exists p, i: nat :: p in files && i < |files[p].chunks| && key == ChunkKey(p, i)
  }

  /** No stored path is also the cache key of a stored chunk. */
  ghost predicate NoSharedKeys(files: Files) {
    forall p :: p in files ==> !IsStoredChunkKey(files, p)
  }

  /** `data` is the start of the file stored at `key`. */
  ghost predicate WholeRight(files: Files, remote: Remote, key: string, data: Bytes) {
    key in files && data <= Text(remote, files[key])
  }

  /** `data` is chunk `i` of the file stored at `p`. */
  ghost predicate ChunkRight(files: Files, remote: Remote, p: string, i: nat, data: Bytes) {
    p in files && i < |files[p].chunks| && Fetch(remote, files[p].chunks[i]) == Ok(data)
  }

  /** A cached blob belongs to a stored path and is the start of that file, or one of its chunks. */
  ghost predicate KeyRight(files: Files, remote: Remote, key: string, data: Bytes) {
    WholeRight(files, remote, key, data) || exists p, i: nat :: key == ChunkKey(p, i) && ChunkRight(files, remote, p, i, data)
  }

  ghost predicate Sound(files: Files, remote: Remote, blobs: Blobs) {
    forall k :: k in blobs ==> KeyRight(files, remote, k, blobs[k])
  }

  predicate MarkAt(p: string, i: nat) {
    i + 7 <= |p| && p[i..i + 7] == ".chunk."
  }

  /** Names without the mark: it is enough to look at the stored paths, whatever their chunks. */
  lemma PlainNamesShareNoKeys(files: Files)
    requires forall p, i: nat :: p in files ==> !MarkAt(p, i)
    ensures NoSharedKeys(files)
  {
    forall k | k in files
      ensures !IsStoredChunkKey(files, k)
    {
      forall p, i: nat | p in files && i < |files[p].chunks|
        ensures k != ChunkKey(p, i)
      {
        var key := ChunkKey(p, i);
        assert key[|p|..|p| + 7] == ".chunk.";
        assert MarkAt(key, |p|);
      }
    }
  }

  // ---------------------------------------------------------------- hits

  lemma WholeHit(files: Files, remote: Remote, blobs: Blobs, p: string)
    requires Sound(files, remote, blobs) && NoSharedKeys(files) && p in files && p in blobs
    ensures blobs[p] <= Text(remote, files[p])
  {
    assert KeyRight(files, remote, p, blobs[p]);
  }

  lemma ChunkHit(files: Files, remote: Remote, blobs: Blobs, p: string, i: nat)
    requires Sound(files, remote, blobs) && NoSharedKeys(files)
    requires p in files && i < |files[p].chunks| && ChunkKey(p, i) in blobs
    ensures Fetch(remote, files[p].chunks[i]) == Ok(blobs[ChunkKey(p, i)])
  {
    var key := ChunkKey(p, i);
    assert KeyRight(files, remote, key, blobs[key]);
    assert IsStoredChunkKey(files, key);
    KeyOfOneChunk(files, remote, p, i, blobs[key]);
  }

  /** A blob that is right under a chunk's key, and not for a path of that name, is that chunk. */
  lemma KeyOfOneChunk(files: Files, remote: Remote, p: string, i: nat, data: Bytes)
    requires KeyRight(files, remote, ChunkKey(p, i), data)
    ensures WholeRight(files, remote, ChunkKey(p, i), data) || ChunkRight(files, remote, p, i, data)
  {
    if !WholeRight(files, remote, ChunkKey(p, i), data) {
      var q, j: nat :| ChunkKey(p, i) == ChunkKey(q, j) && ChunkRight(files, remote, q, j, data);
      ChunkKeyInjective(p, i, q, j);
    }
  }

  // ---------------------------------------------------------------- what keeps the cache sound

  lemma SoundAfterDrop(files: Files, remote: Remote, blobs: Blobs, fewer: Blobs)
    requires Sound(files, remote, blobs)
    requires forall k :: k in fewer ==> k in blobs && fewer[k] == blobs[k]
    ensures Sound(files, remote, fewer)
  {
    forall k | k in fewer
      ensures KeyRight(files, remote, k, fewer[k])
    {
      assert KeyRight(files, remote, k, blobs[k]);
    }
  }

  lemma SoundAfterSet(files: Files, remote: Remote, blobs: Blobs, key: string, data: Bytes)
    requires Sound(files, remote, blobs) && KeyRight(files, remote, key, data)
    ensures Sound(files, remote, blobs[key := data])
  {
    var after := blobs[key := data];
    forall k | k in after
      ensures KeyRight(files, remote, k, after[k])
    {
      assert k != key ==> KeyRight(files, remote, k, blobs[k]);
    }
  }

  /** A blob stays right when the path it belongs to keeps its entry. */
  lemma KeyRightCarries(files: Files, files': Files, remote: Remote, key: string, data: Bytes, p: string)
    requires KeyRight(files, remote, key, data)
    requires p == OwnerOf(files, remote, key, data)
    requires p in files' && files'[p] == files[p]
    ensures KeyRight(files', remote, key, data)
  {
    if !WholeRight(files, remote, key, data) {
      var i: nat :| key == ChunkKey(p, i) && ChunkRight(files, remote, p, i, data);
      assert ChunkRight(files', remote, p, i, data);
    }
  }

  /** The stored path that a right blob belongs to. */
  ghost function OwnerOf(files: Files, remote: Remote, key: string, data: Bytes): (p: string)
    requires KeyRight(files, remote, key, data)
    ensures p in files
    ensures key == p || exists i: nat :: key == ChunkKey(p, i)
  {
    if WholeRight(files, remote, key, data) then key
    else
      var p, i: nat :| key == ChunkKey(p, i) && ChunkRight(files, remote, p, i, data);
      p
  }

  /** The keys that deleting or renaming `p` clears. */
  predicate ClearedWith(p: string, key: string) {
    key == p || p + MARK <= key || Under(p, key)
  }

  function Cleared(blobs: Blobs, p: string): Blobs {
    map k | k in blobs && !ClearedWith(p, k) :: blobs[k]
  }

  /** Whatever belongs to `p` or to a path below it is cleared. */
  lemma OwnedAreCleared(p: string, q: string, key: string)
    requires AtOrUnder(p, q) && (key == q || exists i: nat :: key == ChunkKey(q, i))
    ensures ClearedWith(p, key)
  {
    if key != q {
      var i: nat :| key == ChunkKey(q, i);
      assert key[..|q|] == q;
      if q == p {
        assert key[..|p + MARK|] == p + MARK;
      } else {
        UnderIndex(p, q);
        UnderIndex(p, key);
        assert key[..|p|] == q[..|p|];
      }
    }
  }

  /** Nothing is cached for any of the paths: no whole file and no chunk. */
  ghost predicate NothingCachedOf(files: Files, blobs: Blobs, paths: set<string>) {
    forall q :: q in paths && q in files ==> q !in blobs && forall i: nat :: i < |files[q].chunks| ==> ChunkKey(q, i) !in blobs
  }

  /** The cache's half of a delete leaves nothing cached for the path and for what is below it. */
  lemma ClearedNothing(files: Files, blobs: Blobs, p: string)
    requires p in files
    ensures NothingCachedOf(files, Cleared(blobs, p), Subtree(files, p))
  {
    forall q | q in Subtree(files, p)
      ensures q !in Cleared(blobs, p) && forall i: nat :: i < |files[q].chunks| ==> ChunkKey(q, i) !in Cleared(blobs, p)
    {
      OwnedAreCleared(p, q, q);
      forall i: nat | i < |files[q].chunks|
        ensures ChunkKey(q, i) !in Cleared(blobs, p)
      {
        OwnedAreCleared(p, q, ChunkKey(q, i));
      }
    }
  }

  /** The cache's half of a read: caching a blob keeps the cache right exactly when the blob is right for what is stored now. */
  lemma PutKeepsSoundIff(files: Files, remote: Remote, blobs: Blobs, key: string, data: Bytes)
    requires Sound(files, remote, blobs)
    ensures Sound(files, remote, blobs[key := data]) <==> KeyRight(files, remote, key, data)
  {
    if Sound(files, remote, blobs[key := data]) {
      assert KeyRight(files, remote, key, blobs[key := data][key]);
    }
    if KeyRight(files, remote, key, data) {
      SoundAfterSet(files, remote, blobs, key, data);
    }
  }

  /** Storage's half of a delete: removing a subtree keeps the cache right exactly when nothing is cached for it. */
  lemma RemoveKeepsSoundIff(files: Files, remote: Remote, blobs: Blobs, p: string)
    requires Sound(files, remote, blobs) && NoSharedKeys(files) && p in files
    ensures Sound(files - Subtree(files, p), remote, blobs) <==> NothingCachedOf(files, blobs, Subtree(files, p))
  {
    var after := files - Subtree(files, p);
    if NothingCachedOf(files, blobs, Subtree(files, p)) {
      forall k | k in blobs
        ensures KeyRight(after, remote, k, blobs[k])
      {
        assert KeyRight(files, remote, k, blobs[k]);
        OwnerIsCached(files, remote, k, blobs[k]);
        KeyRightCarries(files, after, remote, k, blobs[k], OwnerOf(files, remote, k, blobs[k]));
      }
    }
    if Sound(after, remote, blobs) {
      forall q | q in Subtree(files, p)
        ensures q !in blobs && forall i: nat :: i < |files[q].chunks| ==> ChunkKey(q, i) !in blobs
      {
        GoneAreUncached(files, after, remote, blobs, q);
      }
    }
  }

  lemma OwnerIsCached(files: Files, remote: Remote, key: string, data: Bytes)
    requires KeyRight(files, remote, key, data)
    ensures var q := OwnerOf(files, remote, key, data);
            key == q || exists i: nat :: i < |files[q].chunks| && key == ChunkKey(q, i)
  {
    if !WholeRight(files, remote, key, data) {
      var q := OwnerOf(files, remote, key, data);
      var i: nat :| key == ChunkKey(q, i) && ChunkRight(files, remote, q, i, data);
    }
  }

  /** A right cache for fewer paths has nothing cached for a path that is gone. */
  lemma GoneAreUncached(files: Files, after: Files, remote: Remote, blobs: Blobs, q: string)
    requires NoSharedKeys(files) && Sound(after, remote, blobs) && q in files && q !in after
    requires forall k :: k in after ==> k in files && after[k] == files[k]
    ensures q !in blobs && forall i: nat :: i < |files[q].chunks| ==> ChunkKey(q, i) !in blobs
  {
    assert q in blobs ==> KeyRight(after, remote, q, blobs[q]);
    assert !IsStoredChunkKey(files, q);
    forall i: nat | i < |files[q].chunks|
      ensures ChunkKey(q, i) !in blobs
    {
      var key := ChunkKey(q, i);
      assert IsStoredChunkKey(files, key);
      if key in blobs {
        assert KeyRight(after, remote, key, blobs[key]);
        KeyOfOneChunk(after, remote, q, i, blobs[key]);
      }
    }
  }

  /** After deleting a path, everything still cached belongs to what is still stored. */
  lemma SoundAfterDelete(files: Files, remote: Remote, blobs: Blobs, p: string)
    requires Sound(files, remote, blobs)
    ensures Sound(if p in files then files - Subtree(files, p) else files, remote, Cleared(blobs, p))
  {
    var after := if p in files then files - Subtree(files, p) else files;
    forall k | k in Cleared(blobs, p)
      ensures KeyRight(after, remote, k, blobs[k])
    {
      assert KeyRight(files, remote, k, blobs[k]);
      var q := OwnerOf(files, remote, k, blobs[k]);
      if AtOrUnder(p, q) {
        OwnedAreCleared(p, q, k);
      }
      KeyRightCarries(files, after, remote, k, blobs[k], q);
    }
  }

  /**
   After renaming to a free, unrelated name, what is still cached, and the whole-file blob carried over
   to the new name, is right for the renamed files.
   */
  lemma SoundAfterRename(files: Files, remote: Remote, blobs: Blobs, from: string, to: string, now: int)
    requires Sound(files, remote, blobs)
    requires from in files && Unrelated(from, to) && FreeName(files, to)
    ensures Sound(Renamed(files, from, to, now), remote, Cleared(blobs, from))
    ensures forall data :: WholeRight(files, remote, from, data) ==> KeyRight(Renamed(files, from, to, now), remote, to, data)
  {
    var after := Renamed(files, from, to, now);
    RenameKeepsEntries(files, from, to, now);
    SubtreeAtOrUnder(files, from);
    forall k | k in Cleared(blobs, from)
      ensures KeyRight(after, remote, k, blobs[k])
    {
      assert KeyRight(files, remote, k, blobs[k]);
      var q := OwnerOf(files, remote, k, blobs[k]);
      if AtOrUnder(from, q) {
        OwnedAreCleared(from, q, k);
      }
      assert NewName(files, from, to, q) == q;
      KeyRightCarries(files, after, remote, k, blobs[k], q);
    }
    assert from[|from|..] == "";
    assert NewName(files, from, to, from) == to;
  }

  // ---------------------------------------------------------------- storing a new version

  /** The new version begins with the same chunk contents as the old one. */
  ghost predicate SameStart(remote: Remote, e: FileEntry, e': FileEntry) {
    && |e.chunks| <= |e'.chunks|
    && forall i :: 0 <= i < |e.chunks| ==> Fetch(remote, e'.chunks[i]) == Fetch(remote, e.chunks[i])
  }

  lemma {:induction false} SameStartDecodes(remote: Remote, chunks: seq<ChunkFile>, chunks': seq<ChunkFile>)
    requires |chunks| <= |chunks'|
    requires forall i :: 0 <= i < |chunks| ==> Fetch(remote, chunks'[i]) == Fetch(remote, chunks[i])
    requires Decode(remote, chunks).Ok? && Decode(remote, chunks').Ok?
    ensures Decode(remote, chunks).value <= Decode(remote, chunks').value
    decreases |chunks'|
  {
    if chunks != [] {
      var n, n' := |chunks| - 1, |chunks'| - 1;
      if n < n' {
        SameStartDecodes(remote, chunks, chunks'[..n']);
      } else {
        SameStartDecodes(remote, chunks[..n], chunks'[..n']);
        SameLengthDecodes(remote, chunks[..n], chunks'[..n']);
      }
    }
  }

  lemma {:induction false} SameLengthDecodes(remote: Remote, chunks: seq<ChunkFile>, chunks': seq<ChunkFile>)
    requires |chunks| == |chunks'|
    requires forall i :: 0 <= i < |chunks| ==> Fetch(remote, chunks'[i]) == Fetch(remote, chunks[i])
    ensures Decode(remote, chunks) == Decode(remote, chunks')
  {
    if chunks != [] {
      var n := |chunks| - 1;
      SameLengthDecodes(remote, chunks[..n], chunks'[..n]);
    }
  }

  lemma ReadableDecodes(remote: Remote, e: FileEntry)
    requires EntryReadable(remote, e)
    ensures Decode(remote, e.chunks) == Ok(Text(remote, e))
    ensures SizesRight(remote, e.chunks)
  {
    HoldsIffDecodes(remote, e.chunks, Text(remote, e));
  }

  lemma StartsWithText(remote: Remote, e: FileEntry, e': FileEntry)
    requires EntryReadable(remote, e) && EntryReadable(remote, e') && SameStart(remote, e, e')
    ensures Text(remote, e) <= Text(remote, e')
  {
    ReadableDecodes(remote, e);
    ReadableDecodes(remote, e');
    SameStartDecodes(remote, e.chunks, e'.chunks);
  }

  /** A blob that was right for the old version is right for a version with the same start. */
  lemma KeyRightAfterStore(files: Files, remote: Remote, key: string, data: Bytes, p: string, e: FileEntry)
    requires KeyRight(files, remote, key, data)
    requires p in files ==> EntryReadable(remote, files[p]) && EntryReadable(remote, e) && SameStart(remote, files[p], e)
    ensures KeyRight(files[p := e], remote, key, data)
  {
    var q := OwnerOf(files, remote, key, data);
    if q != p {
      KeyRightCarries(files, files[p := e], remote, key, data, q);
    } else if WholeRight(files, remote, key, data) {
      ReadableDecodes(remote, files[p]);
      ReadableDecodes(remote, e);
      SameStartDecodes(remote, files[p].chunks, e.chunks);
    } else {
      var i: nat :| key == ChunkKey(p, i) && ChunkRight(files, remote, p, i, data);
      assert ChunkRight(files[p := e], remote, p, i, data);
    }
  }

  /** The effect of storing an entry, new or continuing an old one, with its missing folders. */
  lemma SoundAfterStore(files: Files, remote: Remote, blobs: Blobs, p: string, e: FileEntry, now: int)
    requires Sound(files, remote, blobs)
    requires p in files ==> EntryReadable(remote, files[p]) && EntryReadable(remote, e) && SameStart(remote, files[p], e)
    ensures Sound(WithAncestors(files[p := e], p, now), remote, blobs)
  {
    var after := WithAncestors(files[p := e], p, now);
    forall k | k in blobs
      ensures KeyRight(after, remote, k, blobs[k])
    {
      KeyRightAfterStore(files, remote, k, blobs[k], p, e);
      var q := OwnerOf(files[p := e], remote, k, blobs[k]);
      KeyRightCarries(files[p := e], after, remote, k, blobs[k], q);
    }
  }

  /** New messages change nothing that is stored or cached. */
  lemma SoundMonotone(files: Files, remote: Remote, remote': Remote, blobs: Blobs)
    requires Readable(files, remote) && Sound(files, remote, blobs) && Grows(remote, remote')
    ensures Readable(files, remote') && Sound(files, remote', blobs)
    ensures forall p :: p in files ==> Text(remote', files[p]) == Text(remote, files[p])
  {
    forall p | p in files
      ensures EntryReadable(remote', files[p]) && Text(remote', files[p]) == Text(remote, files[p])
    {
      assert EntryReadable(remote, files[p]);
      HoldsMonotone(remote, remote', files[p].chunks, Text(remote, files[p]));
      HoldsIffDecodes(remote', files[p].chunks, Text(remote, files[p]));
    }
    forall k | k in blobs
      ensures KeyRight(files, remote', k, blobs[k])
    {
      assert KeyRight(files, remote, k, blobs[k]);
      if !WholeRight(files, remote, k, blobs[k]) {
        var p, i: nat :| k == ChunkKey(p, i) && ChunkRight(files, remote, p, i, blobs[k]);
        assert ChunkRight(files, remote', p, i, blobs[k]);
      }
    }
  }

  // ---------------------------------------------------------------- what stays readable

  lemma ReadableAfterRename(files: Files, remote: Remote, from: string, to: string, now: int)
    requires Readable(files, remote) && from in files && Unrelated(from, to)
    ensures Readable(Renamed(files, from, to, now), remote)
  {
    var after := Renamed(files, from, to, now);
    RenamedEntries(files, from, to, now);
    MarkerReadable(remote, now);
    forall k | k in after
      ensures EntryReadable(remote, after[k])
    {
      if q :| q in Subtree(files, from) && NewName(files, from, to, q) == k {
        assert EntryReadable(remote, files[q]);
      } else if k in files && after[k] == files[k] {
        assert EntryReadable(remote, files[k]);
      }
    }
  }

  lemma MarkerReadable(remote: Remote, now: int)
    ensures EntryReadable(remote, FolderMarker(now))
  {
  }

  lemma StoreReadable(files: Files, remote: Remote, p: string, e: FileEntry, now: int)
    requires Readable(files, remote) && EntryReadable(remote, e)
    ensures Readable(WithAncestors(files[p := e], p, now), remote)
  {
    MarkerReadable(remote, now);
  }

  /** Only stored paths, and keys of stored chunks, are cached. */
  lemma UncachedUnlessStored(files: Files, remote: Remote, blobs: Blobs, p: string)
    requires Sound(files, remote, blobs) && !IsStoredChunkKey(files, p)
    ensures p in blobs ==> WholeRight(files, remote, p, blobs[p])
  {
    assert p in blobs ==> KeyRight(files, remote, p, blobs[p]);
  }
}
