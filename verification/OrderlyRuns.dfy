/**
 A discipline that is enough for every read to be right: one delete or rename at a time, and no read of what it
 changes from its first half to its last. Reads of everything else, uploads to other paths, evictions and new
 messages may go on in between, and the process may crash if nothing is cached of what that loses.
 */
module OrderlyRuns {
  import opened Content
  import opened Paths
  import opened Tree
  import opened Rename
  import opened CacheKeys
  import opened CachedReads
  import opened ServedReads
  import opened ReadRuns

  /** The delete or rename that is between its halves; `cleared` once the cache's half of a rename is over. */
  datatype Busy = Idle | Deleting(p: string) | Moving(from: string, to: string, cleared: bool)

  /** `q` is not touched by what is under way. */
  predicate Away(busy: Busy, q: string) {
    match busy
    case Idle => true
    case Deleting(p) => !AtOrUnder(p, q)
    case Moving(from, to, _) => !AtOrUnder(from, q) && !AtOrUnder(to, q)
  }

  ghost predicate NoReaders(s: State, p: string) {
    forall id :: id in s.readers ==> !AtOrUnder(p, s.readers[id].path)
  }

  /** A rename may begin: the new name is free, unrelated, not the cache key of a stored chunk, and nobody reads. */
  ghost predicate MayMove(s: State, from: string, to: string) {
    && from in s.files && Unrelated(from, to) && to !in s.files && !IsStoredChunkKey(s.files, to)
    && NoReaders(s, from) && NoReaders(s, to)
  }

  /** The step keeps to the discipline, which goes from `busy` to `busy'`. */
  ghost predicate Orderly(s: State, busy: Busy, op: Op, busy': Busy)
    requires Enabled(s, op)
  {
    match op
    case Open(_, p, _) => busy' == busy && Away(busy, p)
    case Clear(p) =>
      || (busy.Idle? && busy' == Deleting(p) && NoReaders(s, p))
      || (busy.Idle? && busy'.Moving? && busy'.from == p && busy'.cleared && MayMove(s, p, busy'.to))
      || (busy.Moving? && busy.from == p && s.carriers == map[] && busy' == busy.(cleared := true))
    case Remove(p) => busy == Deleting(p) && busy' == Idle
    case CarryTake(_, from, to) => busy.Idle? && busy' == Moving(from, to, false) && MayMove(s, from, to)
    case CarryPut(_) => busy' == busy
    case Move(from, to, now) =>
      && busy == Moving(from, to, true) && busy' == Idle
      && FreeName(s.files, to) && NoSharedKeys(Renamed(s.files, from, to, now))
    case Store(p, e, now) =>
      && busy' == busy && Away(busy, p) && (p in s.files ==> SameStart(s.remote, s.files[p], e))
      && var after := WithAncestors(s.files[p := e], p, now);
         NoSharedKeys(after) && (busy.Moving? ==> !IsStoredChunkKey(after, busy.to))
    case Crash(saved) => busy' == Idle && Earlier(s.remote, saved, s.files) && NothingCachedIsLost(s, busy, saved)
    case _ => busy' == busy
  }

  /** What was saved is the start of what is stored, path by path. */
  ghost predicate Earlier(remote: Remote, saved: Files, files: Files) {
    forall p :: p in saved ==> p in files && SameStart(remote, saved[p], files[p])
  }

  /** What is cached of stored files is of what was saved, and nothing has been carried over to a new name. */
  ghost predicate NothingCachedIsLost(s: State, busy: Busy, saved: Files) {
    && (forall p :: p in s.files && p in s.blobs ==> p in saved && s.blobs[p] <= Text(s.remote, saved[p]))
    && (forall p, i: nat :: p in s.files && i < |s.files[p].chunks| && ChunkKey(p, i) in s.blobs ==>
          p in saved && i < |saved[p].chunks|)
    && (busy.Moving? ==> busy.to !in s.blobs)
  }

  // ---------------------------------------------------------------- the invariant

  /** The blobs that must be right for what is stored: not the one that is carried over to a new name. */
  function Settled(busy: Busy, blobs: Blobs): Blobs {
    if busy.Moving? then blobs - {busy.to} else blobs
  }

  ghost predicate CacheInv(s: State, busy: Busy) {
    && Sound(s.files, s.remote, Settled(busy, s.blobs))
    && (!busy.Moving? ==> s.carriers == map[])
    && (busy.Deleting? && busy.p in s.files ==> NothingCachedOf(s.files, s.blobs, Subtree(s.files, busy.p)))
    && (busy.Moving? ==> MovingInv(s, busy.from, busy.to, busy.cleared))
  }

  /** Between the halves of a rename, what is cached or carried for the new name is the old name's file. */
  ghost predicate MovingInv(s: State, from: string, to: string, cleared: bool) {
    && from in s.files && Unrelated(from, to) && to !in s.files && !IsStoredChunkKey(s.files, to)
    && (to in s.blobs ==> WholeRight(s.files, s.remote, from, s.blobs[to]))
    && (forall id :: id in s.carriers ==> s.carriers[id].to == to && WholeRight(s.files, s.remote, from, s.carriers[id].data))
    && (cleared ==> s.carriers == map[] && NothingCachedOf(s.files, s.blobs, Subtree(s.files, from)))
  }

  /** A read is right for its entry, which is the start of what is stored. */
  ghost predicate ReaderInv(files: Files, remote: Remote, r: Reader) {
    ReaderRight(remote, r) && r.path in files && SameStart(remote, r.entry, files[r.path])
  }

  ghost predicate ReadersInv(s: State, busy: Busy) {
    forall id :: id in s.readers ==> ReaderInv(s.files, s.remote, s.readers[id]) && Away(busy, s.readers[id].path)
  }

  ghost predicate Inv(s: State, busy: Busy) {
    Readable(s.files, s.remote) && NoSharedKeys(s.files) && CacheInv(s, busy) && ReadersInv(s, busy)
  }

  /** Then everything that reads take from the cache is right. */
  lemma InvServes(s: State, busy: Busy)
    requires Inv(s, busy)
    ensures AllRight(s)
  {
    SoundServes(s.files, s.remote, Settled(busy, s.blobs));
    ReadsRightByKey(s.files, s.remote, Settled(busy, s.blobs));
    ReadsRightByKey(s.files, s.remote, s.blobs);
    forall k | k in s.blobs
      ensures KeyServed(s.files, s.remote, k, s.blobs[k])
    {
      if busy.Moving? && k == busy.to {
        NoChunkKeyServed(s.files, s.remote, k, s.blobs[k]);
      } else {
        assert k in Settled(busy, s.blobs);
      }
    }
    forall id | id in s.readers
      ensures ReaderRight(s.remote, s.readers[id])
    {
      assert ReaderInv(s.files, s.remote, s.readers[id]);
    }
  }

  lemma NoChunkKeyServed(files: Files, remote: Remote, key: string, data: Bytes)
    requires key !in files && !IsStoredChunkKey(files, key)
    ensures KeyServed(files, remote, key, data)
  {
  }

  /** With nothing cached and nobody reading the discipline can start. */
  lemma ColdStart(files: Files, remote: Remote)
    requires Readable(files, remote) && NoSharedKeys(files)
    ensures Inv(Cold(files, remote), Idle)
  {
  }

  // ---------------------------------------------------------------- reads

  /** The chunk that a read comes to is the chunk that is stored, and its key is free of what is under way. */
  lemma NextChunkStored(s: State, busy: Busy, r: Reader)
    requires Inv(s, busy) && ReaderInv(s.files, s.remote, r) && Away(busy, r.path) && r.next < |r.entry.chunks|
    ensures r.next < |s.files[r.path].chunks|
    ensures Fetch(s.remote, s.files[r.path].chunks[r.next]) == Fetch(s.remote, r.entry.chunks[r.next])
    ensures IsStoredChunkKey(s.files, NextKey(r)) && NextKey(r) !in s.files
    ensures busy.Moving? ==> NextKey(r) != busy.to
  {
    assert IsStoredChunkKey(s.files, NextKey(r));
  }

  lemma ReaderAdvances(files: Files, remote: Remote, r: Reader, data: Bytes)
    requires ReaderInv(files, remote, r) && r.next < |r.entry.chunks| && Fetch(remote, r.entry.chunks[r.next]) == Ok(data)
    ensures ReaderInv(files, remote, r.(next := r.next + 1, got := r.got + data, held := None))
  {
    DecodeOneMore(remote, r.entry.chunks, r.first, r.next, r.got, data);
  }

  /** One reader is new or has moved. */
  lemma ReaderSet(s: State, busy: Busy, id: nat, r: Reader)
    requires ReadersInv(s, busy) && ReaderInv(s.files, s.remote, r) && Away(busy, r.path)
    ensures ReadersInv(s.(readers := s.readers[id := r]), busy)
  {
    var readers := s.readers[id := r];
    hide ReaderInv, Away;
    forall k | k in readers
      ensures ReaderInv(s.files, s.remote, readers[k]) && Away(busy, readers[k].path)
    {
      assert k != id ==> k in s.readers && readers[k] == s.readers[k];
    }
  }

  lemma CacheIgnoresReaders(s: State, busy: Busy, readers: map<nat, Reader>)
    requires CacheInv(s, busy)
    ensures CacheInv(s.(readers := readers), busy)
  {
  }

  lemma ReaderSetKeeps(s: State, busy: Busy, id: nat, r: Reader)
    requires Inv(s, busy) && ReaderInv(s.files, s.remote, r) && Away(busy, r.path)
    ensures Inv(s.(readers := s.readers[id := r]), busy)
  {
    ReaderSet(s, busy, id, r);
    CacheIgnoresReaders(s, busy, s.readers[id := r]);
    hide ReadersInv, CacheInv;
  }

  lemma ReaderAt(s: State, busy: Busy, id: nat)
    requires ReadersInv(s, busy) && id in s.readers
    ensures ReaderInv(s.files, s.remote, s.readers[id]) && Away(busy, s.readers[id].path)
  {
    hide ReaderInv, Away;
  }

  lemma ReadAdvances(s: State, busy: Busy, id: nat, data: Bytes)
    requires ReadersInv(s, busy) && id in s.readers && s.readers[id].next < |s.readers[id].entry.chunks|
    requires Fetch(s.remote, s.readers[id].entry.chunks[s.readers[id].next]) == Ok(data)
    ensures ReadersInv(Read(s, id, data), busy)
  {
    hide ReadersInv, ReaderInv, Away, Fetch;
    var r := s.readers[id];
    ReaderAt(s, busy, id);
    ReaderAdvances(s.files, s.remote, r, data);
    ReaderSet(s, busy, id, r.(next := r.next + 1, got := r.got + data, held := None));
  }

  lemma HitKeeps(s: State, busy: Busy, id: nat)
    requires Inv(s, busy) && Enabled(s, Hit(id))
    ensures Inv(Apply(s, Hit(id)), busy)
  {
    var r := s.readers[id];
    NextChunkStored(s, busy, r);
    ChunkHit(s.files, s.remote, Settled(busy, s.blobs), r.path, r.next);
    ReadAdvances(s, busy, id, s.blobs[NextKey(r)]);
  }

  /** A whole-file blob that a read is given is the start of the file or the file the start of it. */
  lemma HitBlobKeeps(s: State, busy: Busy, id: nat)
    requires Inv(s, busy) && Enabled(s, HitBlob(id))
    ensures Inv(Apply(s, HitBlob(id)), busy)
  {
    var r := s.readers[id];
    assert ReaderInv(s.files, s.remote, r) && Away(busy, r.path);
    assert r.path in Settled(busy, s.blobs);
    WholeHit(s.files, s.remote, Settled(busy, s.blobs), r.path);
    assert EntryReadable(s.remote, s.files[r.path]);
    StartsWithText(s.remote, r.entry, s.files[r.path]);
    BothStartsAgree(s.blobs[r.path], Text(s.remote, r.entry), Text(s.remote, s.files[r.path]));
    ReaderSetKeeps(s, busy, id, r.(blob := Some(s.blobs[r.path])));
  }

  lemma BothStartsAgree(a: Bytes, b: Bytes, all: Bytes)
    requires a <= all && b <= all
    ensures Agree(a, b)
  {
    if |a| <= |b| {
      assert a == all[..|a|] == b[..|a|];
    } else {
      assert b == all[..|b|] == a[..|b|];
    }
  }

  /** `data` is what belongs under `key` because of the stored path `q`. */
  ghost predicate BelongsTo(files: Files, remote: Remote, key: string, data: Bytes, q: string) {
    q in files && ((key == q && WholeRight(files, remote, q, data))
                   || exists i: nat :: key == ChunkKey(q, i) && ChunkRight(files, remote, q, i, data))
  }

  lemma BelongingIsRight(s: State, busy: Busy, key: string, data: Bytes, q: string)
    requires NoSharedKeys(s.files) && CacheInv(s, busy) && BelongsTo(s.files, s.remote, key, data, q) && Away(busy, q)
    ensures KeyRight(s.files, s.remote, key, data)
    ensures busy.Moving? ==> key != busy.to
  {
    if key != q {
      assert IsStoredChunkKey(s.files, key);
    }
  }

  /** A blob that belongs to a path that is away from what is under way may be cached. */
  lemma PutKeepsCache(s: State, busy: Busy, key: string, data: Bytes, q: string)
    requires NoSharedKeys(s.files) && CacheInv(s, busy) && BelongsTo(s.files, s.remote, key, data, q) && Away(busy, q)
    ensures CacheInv(s.(blobs := s.blobs[key := data]), busy)
  {
    BelongingIsRight(s, busy, key, data, q);
    if busy.Deleting? && busy.p in s.files {
      StillNothingCached(s.files, s.remote, s.blobs, Subtree(s.files, busy.p), key, data, q);
    }
    if busy.Moving? && busy.cleared {
      SubtreeAtOrUnder(s.files, busy.from);
      StillNothingCached(s.files, s.remote, s.blobs, Subtree(s.files, busy.from), key, data, q);
    }
    hide BelongsTo, NothingCachedOf, NoSharedKeys, KeyRight, WholeRight, Sound, Away, Subtree;
    SoundAfterSet(s.files, s.remote, Settled(busy, s.blobs), key, data);
    assert Settled(busy, s.blobs[key := data]) == Settled(busy, s.blobs)[key := data];
  }

  lemma StillNothingCached(files: Files, remote: Remote, blobs: Blobs, paths: set<string>, key: string, data: Bytes, q: string)
    requires NoSharedKeys(files) && NothingCachedOf(files, blobs, paths) && BelongsTo(files, remote, key, data, q) && q !in paths
    ensures NothingCachedOf(files, blobs[key := data], paths)
  {
    forall p | p in paths && p in files
      ensures p != key && forall i: nat :: i < |files[p].chunks| ==> ChunkKey(p, i) != key
    {
      assert !IsStoredChunkKey(files, q) && !IsStoredChunkKey(files, p);
      if key != q {
        assert IsStoredChunkKey(files, key);
        forall i: nat | i < |files[p].chunks|
          ensures ChunkKey(p, i) != key
        {
          var j: nat :| key == ChunkKey(q, j) && ChunkRight(files, remote, q, j, data);
          if ChunkKey(p, i) == ChunkKey(q, j) {
            ChunkKeyInjective(p, i, q, j);
          }
        }
      }
    }
  }

  lemma PutKeeps(s: State, busy: Busy, id: nat)
    requires Inv(s, busy) && Enabled(s, Put(id))
    ensures Inv(Apply(s, Put(id)), busy)
  {
    var r := s.readers[id];
    NextChunkStored(s, busy, r);
    assert ChunkRight(s.files, s.remote, r.path, r.next, r.held.value);
    PutKeepsCache(s, busy, NextKey(r), r.held.value, r.path);
    ReadAdvances(s, busy, id, r.held.value);
  }

  lemma PutWholeKeeps(s: State, busy: Busy, id: nat)
    requires Inv(s, busy) && Enabled(s, PutWhole(id))
    ensures Inv(Apply(s, PutWhole(id)), busy)
  {
    var r := s.readers[id];
    WholeGot(s.remote, r);
    assert EntryReadable(s.remote, s.files[r.path]);
    StartsWithText(s.remote, r.entry, s.files[r.path]);
    assert BelongsTo(s.files, s.remote, r.path, r.got, r.path);
    PutKeepsCache(s, busy, r.path, r.got, r.path);
  }

  lemma OpenKeeps(s: State, busy: Busy, id: nat, p: string, first: nat)
    requires Inv(s, busy) && Enabled(s, Open(id, p, first)) && Away(busy, p)
    ensures Inv(Apply(s, Open(id, p, first)), busy)
  {
    var e := s.files[p];
    assert EntryReadable(s.remote, e);
    assert e.chunks[first..first] == [];
    ReaderSetKeeps(s, busy, id, Reader(p, e, first, first, [], None, None));
  }

  lemma FetchKeeps(s: State, busy: Busy, id: nat)
    requires Inv(s, busy) && Enabled(s, FetchNext(id))
    ensures Inv(Apply(s, FetchNext(id)), busy)
  {
    var r := s.readers[id];
    ReaderSetKeeps(s, busy, id, r.(held := Some(Fetch(s.remote, r.entry.chunks[r.next]).value)));
  }

  lemma CloseKeeps(s: State, busy: Busy, id: nat)
    requires Inv(s, busy) && Enabled(s, Close(id))
    ensures Inv(Apply(s, Close(id)), busy)
  {
    hide ReaderInv, Away, Sound, NoSharedKeys, Readable;
  }

  // ---------------------------------------------------------------- changes

  lemma FewerBlobsKeep(s: State, busy: Busy, fewer: Blobs)
    requires Inv(s, busy) && forall k :: k in fewer ==> k in s.blobs && fewer[k] == s.blobs[k]
    ensures Inv(s.(blobs := fewer), busy)
  {
    SoundAfterDrop(s.files, s.remote, Settled(busy, s.blobs), Settled(busy, fewer));
  }

  lemma EvictKeeps(s: State, busy: Busy, keep: set<string>)
    requires Inv(s, busy)
    ensures Inv(Apply(s, Evict(keep)), busy)
  {
    FewerBlobsKeep(s, busy, Apply(s, Evict(keep)).blobs);
  }

  lemma UncachedNewName(s: State, to: string)
    requires Sound(s.files, s.remote, s.blobs) && to !in s.files && !IsStoredChunkKey(s.files, to)
    ensures to !in s.blobs && s.blobs - {to} == s.blobs
  {
    if to in s.blobs {
      UncachedUnlessStored(s.files, s.remote, s.blobs, to);
    }
  }

  lemma ClearKeeps(s: State, busy: Busy, p: string, busy': Busy)
    requires Inv(s, busy) && Orderly(s, busy, Clear(p), busy')
    ensures Inv(Apply(s, Clear(p)), busy')
  {
    FewerBlobsKeep(s, busy, Cleared(s.blobs, p));
    if p in s.files {
      ClearedNothing(s.files, s.blobs, p);
    }
    if busy.Idle? && busy'.Moving? {
      UncachedNewName(s, busy'.to);
      assert Settled(busy', Cleared(s.blobs, p)) == Cleared(s.blobs, p);
    }
  }

  lemma CarryKeeps(s: State, busy: Busy, op: Op, busy': Busy)
    requires Inv(s, busy) && Enabled(s, op) && Orderly(s, busy, op, busy') && (op.CarryTake? || op.CarryPut?)
    ensures Inv(Apply(s, op), busy')
  {
    if op.CarryTake? {
      WholeHit(s.files, s.remote, s.blobs, op.from);
      UncachedNewName(s, op.to);
    } else if busy.Moving? {
      var c := s.carriers[op.id];
      assert c.to == busy.to;
      assert Settled(busy, s.blobs[c.to := c.data]) == Settled(busy, s.blobs);
    }
  }

  lemma FewerFilesShareNoKeys(files: Files, fewer: Files)
    requires NoSharedKeys(files) && forall k :: k in fewer ==> k in files && fewer[k] == files[k]
    ensures NoSharedKeys(fewer)
  {
    forall k | k in fewer
      ensures !IsStoredChunkKey(fewer, k)
    {
      assert !IsStoredChunkKey(files, k);
    }
  }

  lemma RemoveKeeps(s: State, busy: Busy, p: string)
    requires Inv(s, busy) && busy == Deleting(p)
    ensures Inv(Apply(s, Remove(p)), Idle)
  {
    if p in s.files {
      var after := s.files - Subtree(s.files, p);
      RemoveKeepsSoundIff(s.files, s.remote, s.blobs, p);
      FewerFilesShareNoKeys(s.files, after);
      forall id | id in s.readers
        ensures s.readers[id].path in after
      {
        assert Away(busy, s.readers[id].path);
      }
    }
  }

  /** After both halves of a rename everything cached is right for the renamed files. */
  lemma SoundAfterMove(s: State, from: string, to: string, now: int)
    requires Inv(s, Moving(from, to, true)) && FreeName(s.files, to)
    ensures Sound(Renamed(s.files, from, to, now), s.remote, s.blobs)
  {
    var after := Renamed(s.files, from, to, now);
    RenameKeepsEntries(s.files, from, to, now);
    SubtreeAtOrUnder(s.files, from);
    assert NewName(s.files, from, to, from) == to by {
      assert from[|from|..] == "";
    }
    forall k | k in s.blobs
      ensures KeyRight(after, s.remote, k, s.blobs[k])
    {
      if k == to {
        assert WholeRight(after, s.remote, to, s.blobs[to]);
      } else {
        assert k in Settled(Moving(from, to, true), s.blobs);
        assert KeyRight(s.files, s.remote, k, s.blobs[k]);
        OwnerIsCached(s.files, s.remote, k, s.blobs[k]);
        var q := OwnerOf(s.files, s.remote, k, s.blobs[k]);
        assert NewName(s.files, from, to, q) == q;
        KeyRightCarries(s.files, after, s.remote, k, s.blobs[k], q);
      }
    }
  }

  lemma MoveKeeps(s: State, busy: Busy, from: string, to: string, now: int)
    requires Inv(s, busy) && Enabled(s, Move(from, to, now)) && Orderly(s, busy, Move(from, to, now), Idle)
    ensures Inv(Apply(s, Move(from, to, now)), Idle)
  {
    var after := Renamed(s.files, from, to, now);
    assert s.carriers == map[];
    assert Apply(s, Move(from, to, now)) == s.(files := after);
    SoundAfterMove(s, from, to, now);
    ReadableAfterRename(s.files, s.remote, from, to, now);
    ReadersAfterMove(s, busy, from, to, now);
    hide *;
    IdleInv(s.(files := after));
  }

  lemma IdleInv(s: State)
    requires Readable(s.files, s.remote) && NoSharedKeys(s.files) && Sound(s.files, s.remote, s.blobs) && s.carriers == map[]
    requires forall id :: id in s.readers ==> ReaderInv(s.files, s.remote, s.readers[id])
    ensures Inv(s, Idle)
  {
    hide ReaderInv, Sound, NoSharedKeys, Readable;
  }

  lemma ReadersAfterMove(s: State, busy: Busy, from: string, to: string, now: int)
    requires ReadersInv(s, busy) && Enabled(s, Move(from, to, now)) && busy.Moving? && busy.from == from
    requires FreeName(s.files, to)
    ensures forall id :: id in s.readers ==> ReaderInv(Renamed(s.files, from, to, now), s.remote, s.readers[id])
  {
    RenameKeepsEntries(s.files, from, to, now);
    SubtreeAtOrUnder(s.files, from);
    forall id | id in s.readers
      ensures ReaderInv(Renamed(s.files, from, to, now), s.remote, s.readers[id])
    {
      var q := s.readers[id].path;
      assert NewName(s.files, from, to, q) == q;
    }
  }

  // ---------------------------------------------------------------- uploads and new messages

  lemma StoreKeepsAway(files: Files, p: string, e: FileEntry, now: int, base: string)
    requires !AtOrUnder(base, p) && base in files
    ensures base in WithAncestors(files[p := e], p, now) && WithAncestors(files[p := e], p, now)[base] == files[base]
    ensures Subtree(WithAncestors(files[p := e], p, now), base) == Subtree(files, base)
    ensures forall q :: q in Subtree(files, base) ==> WithAncestors(files[p := e], p, now)[q] == files[q]
  {
    var after := WithAncestors(files[p := e], p, now);
    AncestorsAreUnder(p);
    forall q | Under(base, q) && q in after
      ensures q in files && after[q] == files[q]
    {
      if q in Ancestors(p) {
        UnderTransitive(base, q, p);
      }
    }
  }

  lemma NothingCachedSame(files: Files, files': Files, blobs: Blobs, paths: set<string>)
    requires NothingCachedOf(files, blobs, paths)
    requires forall q :: q in paths ==> q in files && q in files' && files'[q] == files[q]
    ensures NothingCachedOf(files', blobs, paths)
  {
  }

  lemma StoreKeeps(s: State, busy: Busy, p: string, e: FileEntry, now: int)
    requires Inv(s, busy) && Enabled(s, Store(p, e, now)) && Orderly(s, busy, Store(p, e, now), busy)
    ensures Inv(Apply(s, Store(p, e, now)), busy)
  {
    var s' := Apply(s, Store(p, e, now));
    assert p in s.files ==> EntryReadable(s.remote, s.files[p]);
    StoreReadable(s.files, s.remote, p, e, now);
    SoundAfterStore(s.files, s.remote, Settled(busy, s.blobs), p, e, now);
    StoreKeepsReaders(s, busy, p, e, now);
    match busy {
      case Idle =>
      case Deleting(q) => StoreWhileDeleting(s, q, p, e, now);
      case Moving(from, to, cleared) => StoreWhileMoving(s, busy, p, e, now);
    }
  }

  lemma StoreKeepsReaders(s: State, busy: Busy, p: string, e: FileEntry, now: int)
    requires Inv(s, busy) && EntryReadable(s.remote, e) && (p in s.files ==> SameStart(s.remote, s.files[p], e))
    ensures ReadersInv(s.(files := WithAncestors(s.files[p := e], p, now)), busy)
  {
  }

  lemma StoreWhileDeleting(s: State, base: string, p: string, e: FileEntry, now: int)
    requires CacheInv(s, Deleting(base)) && !AtOrUnder(base, p)
    ensures var after := WithAncestors(s.files[p := e], p, now);
            base in after ==> NothingCachedOf(after, s.blobs, Subtree(after, base))
  {
    var after := WithAncestors(s.files[p := e], p, now);
    if base in s.files {
      StoreKeepsAway(s.files, p, e, now, base);
      NothingCachedSame(s.files, after, s.blobs, Subtree(s.files, base));
    } else {
      AncestorsAreUnder(p);
    }
  }

  lemma StoreWhileMoving(s: State, busy: Busy, p: string, e: FileEntry, now: int)
    requires CacheInv(s, busy) && busy.Moving? && Away(busy, p)
    requires !IsStoredChunkKey(WithAncestors(s.files[p := e], p, now), busy.to)
    ensures MovingInv(s.(files := WithAncestors(s.files[p := e], p, now)), busy.from, busy.to, busy.cleared)
  {
    var after := WithAncestors(s.files[p := e], p, now);
    StoreKeepsAway(s.files, p, e, now, busy.from);
    AncestorsAreUnder(p);
    if busy.cleared {
      SubtreeAtOrUnder(s.files, busy.from);
      NothingCachedSame(s.files, after, s.blobs, Subtree(s.files, busy.from));
    }
  }

  lemma ReaderInvGrows(files: Files, remote: Remote, remote': Remote, r: Reader)
    requires ReaderInv(files, remote, r) && Readable(files, remote) && Grows(remote, remote')
    ensures ReaderInv(files, remote', r)
  {
    var e, stored := r.entry, files[r.path];
    assert EntryReadable(remote, stored);
    ReaderGrows(remote, remote', r);
    forall i: nat | i < |e.chunks|
      ensures Fetch(remote', stored.chunks[i]) == Fetch(remote', e.chunks[i])
    {
      FetchGrows(remote, remote', stored, i);
      FetchGrows(remote, remote', e, i);
    }
  }

  lemma PostKeeps(s: State, busy: Busy, remote: Remote)
    requires Inv(s, busy) && Enabled(s, Post(remote))
    ensures Inv(Apply(s, Post(remote)), busy)
  {
    SoundMonotone(s.files, s.remote, remote, Settled(busy, s.blobs));
    forall id | id in s.readers
      ensures ReaderInv(s.files, remote, s.readers[id])
    {
      ReaderInvGrows(s.files, s.remote, remote, s.readers[id]);
    }
  }

  // ---------------------------------------------------------------- crashes

  lemma EarlierSharesNoKeys(remote: Remote, saved: Files, files: Files)
    requires Earlier(remote, saved, files) && NoSharedKeys(files)
    ensures NoSharedKeys(saved)
  {
    forall k | k in saved
      ensures !IsStoredChunkKey(saved, k)
    {
      assert !IsStoredChunkKey(files, k);
    }
  }

  /** A crash at any moment of an orderly run, even between the halves of a delete or a rename, misleads no read. */
  lemma CrashKeepsReads(s: State, busy: Busy, saved: Files)
    requires Inv(s, busy) && Enabled(s, Crash(saved)) && Earlier(s.remote, saved, s.files)
    ensures AllRight(Apply(s, Crash(saved)))
  {
    ReadsRightByPath(saved, s.remote, s.blobs);
    forall p | p in saved
      ensures EntryServed(s.remote, s.blobs, p, saved[p])
    {
      SavedEntryServed(s, busy, saved, p);
    }
  }

  lemma SavedEntryServed(s: State, busy: Busy, saved: Files, p: string)
    requires Inv(s, busy) && Earlier(s.remote, saved, s.files) && Readable(saved, s.remote) && p in saved
    ensures EntryServed(s.remote, s.blobs, p, saved[p])
  {
    assert EntryReadable(s.remote, saved[p]) && EntryReadable(s.remote, s.files[p]);
    StartsWithText(s.remote, saved[p], s.files[p]);
    if p in s.blobs {
      assert p in Settled(busy, s.blobs);
      WholeHit(s.files, s.remote, Settled(busy, s.blobs), p);
      BothStartsAgree(s.blobs[p], Text(s.remote, saved[p]), Text(s.remote, s.files[p]));
    }
    forall i: nat | i < |saved[p].chunks| && ChunkKey(p, i) in s.blobs
      ensures Fetch(s.remote, saved[p].chunks[i]) == Ok(s.blobs[ChunkKey(p, i)])
    {
      assert IsStoredChunkKey(s.files, ChunkKey(p, i));
      assert ChunkKey(p, i) in Settled(busy, s.blobs);
      ChunkHit(s.files, s.remote, Settled(busy, s.blobs), p, i);
    }
  }

  /**
   After a crash at any moment of an orderly run the discipline can start again exactly when nothing that is cached is
   lost: no chunk or blob of more than what was saved, and no blob that a rename has carried to its new name.
   */
  lemma CrashKeepsInvIff(s: State, busy: Busy, saved: Files)
    requires Inv(s, busy) && Enabled(s, Crash(saved)) && Earlier(s.remote, saved, s.files)
    ensures Inv(Apply(s, Crash(saved)), Idle) <==> NothingCachedIsLost(s, busy, saved)
  {
    EarlierSharesNoKeys(s.remote, saved, s.files);
    var after := Apply(s, Crash(saved));
    assert after == State(saved, s.remote, s.blobs, map[], map[]) && Readable(saved, s.remote);
    if Sound(saved, s.remote, s.blobs) {
      SoundMeansNothingLost(s, busy, saved);
      hide Sound, NothingCachedIsLost, NoSharedKeys, Readable, ReaderInv;
      IdleInv(after);
    }
    if NothingCachedIsLost(s, busy, saved) {
      SavedIsSound(s, busy, saved);
    }
    assert Inv(after, Idle) ==> Sound(saved, s.remote, s.blobs) by {
      assert Settled(Idle, s.blobs) == s.blobs;
    }
  }

  lemma SavedIsSound(s: State, busy: Busy, saved: Files)
    requires Inv(s, busy) && Earlier(s.remote, saved, s.files) && NothingCachedIsLost(s, busy, saved)
    ensures Sound(saved, s.remote, s.blobs)
  {
    forall k | k in s.blobs
      ensures KeyRight(saved, s.remote, k, s.blobs[k])
    {
      SavedKeyRight(s, busy, saved, k);
    }
  }

  lemma SavedKeyRight(s: State, busy: Busy, saved: Files, k: string)
    requires Inv(s, busy) && Earlier(s.remote, saved, s.files) && NothingCachedIsLost(s, busy, saved) && k in s.blobs
    ensures KeyRight(saved, s.remote, k, s.blobs[k])
  {
    assert k in Settled(busy, s.blobs);
    assert KeyRight(s.files, s.remote, k, s.blobs[k]);
    if WholeRight(s.files, s.remote, k, s.blobs[k]) {
      assert WholeRight(saved, s.remote, k, s.blobs[k]);
    } else {
      var p, i: nat :| k == ChunkKey(p, i) && ChunkRight(s.files, s.remote, p, i, s.blobs[k]);
      assert ChunkRight(saved, s.remote, p, i, s.blobs[k]);
    }
  }

  lemma SoundMeansNothingLost(s: State, busy: Busy, saved: Files)
    requires Inv(s, busy) && Earlier(s.remote, saved, s.files) && Sound(saved, s.remote, s.blobs)
    ensures NothingCachedIsLost(s, busy, saved)
  {
    forall p | p in s.files && p in s.blobs
      ensures p in saved && s.blobs[p] <= Text(s.remote, saved[p])
    {
      NotSavedChunkKey(s, saved, p);
    }
    forall p, i: nat | p in s.files && i < |s.files[p].chunks| && ChunkKey(p, i) in s.blobs
      ensures p in saved && i < |saved[p].chunks|
    {
      assert KeyRight(saved, s.remote, ChunkKey(p, i), s.blobs[ChunkKey(p, i)]);
      KeyOfOneChunk(saved, s.remote, p, i, s.blobs[ChunkKey(p, i)]);
      assert IsStoredChunkKey(s.files, ChunkKey(p, i));
    }
    if busy.Moving? && busy.to in s.blobs {
      NotSavedChunkKey(s, saved, busy.to);
    }
  }

  /** A cached key that is not the key of a stored chunk is a saved path. */
  lemma NotSavedChunkKey(s: State, saved: Files, k: string)
    requires Earlier(s.remote, saved, s.files) && Sound(saved, s.remote, s.blobs) && k in s.blobs
    requires !IsStoredChunkKey(s.files, k)
    ensures WholeRight(saved, s.remote, k, s.blobs[k])
  {
    assert KeyRight(saved, s.remote, k, s.blobs[k]);
    forall p, i: nat | p in saved && i < |saved[p].chunks|
      ensures k != ChunkKey(p, i)
    {
      assert p in s.files && i < |s.files[p].chunks|;
    }
  }

  // ---------------------------------------------------------------- all orderly runs

  lemma StepKeepsInv(s: State, busy: Busy, op: Op, busy': Busy)
    requires Inv(s, busy) && Enabled(s, op) && Orderly(s, busy, op, busy')
    ensures Inv(Apply(s, op), busy')
  {
    hide Inv, Apply, Enabled;
    match op {
      case Open(id, p, first) => OpenKeeps(s, busy, id, p, first);
      case FetchNext(id) => FetchKeeps(s, busy, id);
      case Close(id) => CloseKeeps(s, busy, id);
      case Hit(id) => HitKeeps(s, busy, id);
      case HitBlob(id) => HitBlobKeeps(s, busy, id);
      case Put(id) => PutKeeps(s, busy, id);
      case PutWhole(id) => PutWholeKeeps(s, busy, id);
      case Evict(keep) => EvictKeeps(s, busy, keep);
      case Clear(p) => ClearKeeps(s, busy, p, busy');
      case Remove(p) => RemoveKeeps(s, busy, p);
      case CarryTake(_, _, _) => CarryKeeps(s, busy, op, busy');
      case CarryPut(_) => CarryKeeps(s, busy, op, busy');
      case Move(from, to, now) => MoveKeeps(s, busy, from, to, now);
      case Store(p, e, now) => StoreKeeps(s, busy, p, e, now);
      case Crash(saved) => CrashKeepsInvIff(s, busy, saved);
      case Post(remote) => PostKeeps(s, busy, remote);
    }
  }

  ghost predicate IsOrderly(states: seq<State>, ops: seq<Op>, busys: seq<Busy>) {
    && IsHistory(states, ops) && |busys| == |states|
    && forall k {:trigger ops[k]} :: 0 <= k < |ops| ==>
         Step(states[k], ops[k], states[k + 1]) && Orderly(states[k], busys[k], ops[k], busys[k + 1])
  }

  lemma {:induction false} InvAt(states: seq<State>, ops: seq<Op>, busys: seq<Busy>, k: nat)
    requires IsOrderly(states, ops, busys) && Inv(states[0], busys[0]) && k < |states|
    ensures Inv(states[k], busys[k])
  {
    if k != 0 {
      InvAt(states, ops, busys, k - 1);
      assert Orderly(states[k - 1], busys[k - 1], ops[k - 1], busys[k]);
      StepKeepsInv(states[k - 1], busys[k - 1], ops[k - 1], busys[k]);
    }
  }

  /**
   In every interleaving that keeps to the discipline, at every moment: everything that a new read takes from the cache
   is right, and each read under way is right for an entry that is the start of what is stored.
   */
  lemma OrderlyReadsAreRight(states: seq<State>, ops: seq<Op>, busys: seq<Busy>, k: nat)
    requires IsOrderly(states, ops, busys) && Inv(states[0], busys[0]) && k < |states|
    ensures AllRight(states[k])
    ensures forall id :: id in states[k].readers ==> ReaderInv(states[k].files, states[k].remote, states[k].readers[id])
  {
    InvAt(states, ops, busys, k);
    InvServes(states[k], busys[k]);
  }
}
