/**
 What a rename does to reads through the cache. Before anything is checked it carries the cached blob of the old name
 over to the new one; afterwards it clears what is cached for the old name, and nothing of what is cached for the new.
 */
module RenamedReads {
  import opened Content
  import opened Paths
  import opened Tree
  import opened Rename
  import opened CacheKeys
  import opened CachedReads
  import opened ServedReads

  // ---------------------------------------------------------------- a rename that fails

  /** What is cached after the cache's half of a rename, with or without a live blob under the old name. */
  function CarriedOver(blobs: Blobs, from: string, to: string, live: bool): Blobs {
    Cleared(if live && from in blobs then blobs[to := blobs[from]] else blobs, from)
  }

  /**
   When the old name is not stored the rename fails. If something was cached for it, reads of what is stored are right
   right after it exactly when the carried blob was cleared again, or is right for whatever the new name may be consulted for.
   */
  lemma FailedRenameReadsRightIff(files: Files, remote: Remote, blobs: Blobs, from: string, to: string)
    requires ReadsRight(files, remote, blobs) && from !in files && from in blobs
    ensures ReadsRight(files, remote, CarriedOver(blobs, from, to, true)) <==>
            ClearedWith(from, to) || KeyServed(files, remote, to, blobs[from])
  {
    var after := CarriedOver(blobs, from, to, true);
    ReadsRightByKey(files, remote, blobs);
    ReadsRightByKey(files, remote, after);
    if !ClearedWith(from, to) {
      assert to in after && after[to] == blobs[from];
    }
  }

  /** Nothing else happens to reads when a rename fails. */
  lemma FailedRenameUncached(files: Files, remote: Remote, blobs: Blobs, from: string, to: string, live: bool)
    requires ReadsRight(files, remote, blobs) && (from !in blobs || !live)
    ensures ReadsRight(files, remote, CarriedOver(blobs, from, to, live))
  {
    DropKeepsReads(files, remote, blobs, CarriedOver(blobs, from, to, live));
  }

  /** In a cache that reads have built, only the key of a stored chunk is cached without being a stored path. */
  lemma OnlyChunkKeysAreCarried(files: Files, remote: Remote, blobs: Blobs, from: string)
    requires Built(files, remote, blobs) && from in blobs && from !in files
    ensures IsStoredChunkKey(files, from)
  {
    assert BuiltKey(files, remote, from, blobs[from]);
  }

  /** Whatever file may be stored at the path when more messages are there: any, or a continuation of what is stored there. */
  ghost predicate Later(files: Files, remote: Remote, p: string, remote': Remote, e: FileEntry) {
    && Grows(remote, remote') && !e.isFolder && EntryReadable(remote', e)
    && (p in files ==> SameStart(remote', files[p], e))
  }

  /** What is left of a cache after some evictions. */
  ghost predicate LeftOf(kept: Blobs, blobs: Blobs) {
    forall k :: k in kept ==> k in blobs && kept[k] == blobs[k]
  }

  /** Reads that would be right without the blob under `key` are right with it. */
  ghost predicate AddsNoWrongRead(files: Files, remote: Remote, blobs: Blobs, key: string) {
    ReadsRight(files, remote, blobs - {key}) ==> ReadsRight(files, remote, blobs)
  }

  /**
   The blob agrees with every file that can come to be stored at the path: it is the start of what is stored there, or
   that is too large to be read from a blob, or so large that it cannot grow without becoming so.
   */
  predicate WholeStaysRight(files: Files, remote: Remote, p: string, data: Bytes) {
    var stored := if p in files then Text(remote, files[p]) else [];
    data <= stored || MAX_FULL_FILE_RAM_BUFFER < |stored| || (|stored| == MAX_FULL_FILE_RAM_BUFFER && stored <= data)
  }

  /** If the path is the key of a stored chunk, the blob is that chunk. */
  ghost predicate RightAsChunk(files: Files, remote: Remote, key: string, data: Bytes) {
    forall p, i: nat :: p in files && !files[p].isFolder && i < |files[p].chunks| && key == ChunkKey(p, i) && data != [] ==>
      Fetch(remote, files[p].chunks[i]) == Ok(data)
  }

  /**
   The carried blob misleads no read, whatever file comes to be stored at the new name and whatever else has been evicted.
   */
  ghost predicate NeverMisleads(files: Files, remote: Remote, to: string, blobs: Blobs) {
    forall remote', e, kept :: Later(files, remote, to, remote', e) && LeftOf(kept, blobs) ==>
      AddsNoWrongRead(files[to := e], remote', kept, to)
  }

  /**
   After a failed rename of a name that was cached, the carried blob misleads no read then or later exactly when it was
   cleared again or agrees with every file that can come to be stored at the new name.
   */
  lemma FailedRenameStaysRightIff(files: Files, remote: Remote, blobs: Blobs, from: string, to: string)
    requires Readable(files, remote) && from in blobs
    ensures NeverMisleads(files, remote, to, CarriedOver(blobs, from, to, true)) <==>
            ClearedWith(from, to) || (WholeStaysRight(files, remote, to, blobs[from]) && RightAsChunk(files, remote, to, blobs[from]))
  {
    var data, after := blobs[from], CarriedOver(blobs, from, to, true);
    assert ClearedWith(from, to) ==> to !in after;
    assert !ClearedWith(from, to) ==> to in after && after[to] == data;
    hide CarriedOver, WholeStaysRight, RightAsChunk, NeverMisleads;
    if ClearedWith(from, to) || (WholeStaysRight(files, remote, to, data) && RightAsChunk(files, remote, to, data)) {
      RightNeverMisleads(files, remote, to, after);
    }
    if !ClearedWith(from, to) && NeverMisleads(files, remote, to, after) {
      NeverMisledIsRight(files, remote, to, after);
    }
  }

  lemma RightNeverMisleads(files: Files, remote: Remote, to: string, blobs: Blobs)
    requires Readable(files, remote)
    requires to in blobs ==> WholeStaysRight(files, remote, to, blobs[to]) && RightAsChunk(files, remote, to, blobs[to])
    ensures NeverMisleads(files, remote, to, blobs)
  {
    forall remote', e, kept | Later(files, remote, to, remote', e) && LeftOf(kept, blobs)
      ensures AddsNoWrongRead(files[to := e], remote', kept, to)
    {
      if to in kept {
        CarriedStaysRight(files, remote, to, remote', e, blobs[to]);
      }
      hide Later, KeyServed, AddsNoWrongRead;
      OneKeyMore(files[to := e], remote', kept, to);
    }
  }

  lemma NeverMisledIsRight(files: Files, remote: Remote, to: string, blobs: Blobs)
    requires Readable(files, remote) && to in blobs && NeverMisleads(files, remote, to, blobs)
    ensures WholeStaysRight(files, remote, to, blobs[to]) && RightAsChunk(files, remote, to, blobs[to])
  {
    var kept: Blobs := map[to := blobs[to]];
    assert LeftOf(kept, blobs);
    forall remote', e | Later(files, remote, to, remote', e)
      ensures KeyServed(files[to := e], remote', to, blobs[to])
    {
      assert AddsNoWrongRead(files[to := e], remote', kept, to);
      hide Later, KeyServed, AddsNoWrongRead;
      OnlyKey(files[to := e], remote', to, blobs[to]);
    }
    hide Later, KeyServed;
    MustStayRight(files, remote, to, blobs[to]);
  }

  /** A blob more is right exactly when it is right for whatever it may be consulted for. */
  lemma OneKeyMore(files: Files, remote: Remote, blobs: Blobs, key: string)
    requires key in blobs ==> KeyServed(files, remote, key, blobs[key])
    ensures AddsNoWrongRead(files, remote, blobs, key)
  {
    ReadsRightByKey(files, remote, blobs - {key});
    ReadsRightByKey(files, remote, blobs);
    if ReadsRight(files, remote, blobs - {key}) {
      forall k | k in blobs
        ensures KeyServed(files, remote, k, blobs[k])
      {
        assert k != key ==> k in blobs - {key};
      }
    }
  }

  lemma OnlyKey(files: Files, remote: Remote, key: string, data: Bytes)
    requires AddsNoWrongRead(files, remote, map[key := data], key)
    ensures KeyServed(files, remote, key, data)
  {
    var blobs: Blobs := map[key := data];
    assert blobs - {key} == map[];
    ReadsRightByKey(files, remote, map[]);
    ReadsRightByKey(files, remote, blobs);
    assert key in blobs && blobs[key] == data;
  }

  lemma CarriedStaysRight(files: Files, remote: Remote, to: string, remote': Remote, e: FileEntry, data: Bytes)
    requires Readable(files, remote) && Later(files, remote, to, remote', e)
    requires WholeStaysRight(files, remote, to, data) && RightAsChunk(files, remote, to, data)
    ensures KeyServed(files[to := e], remote', to, data)
  {
    SoundMonotone(files, remote, remote', map[]);
    if to in files {
      assert EntryReadable(remote', files[to]);
      StartsWithText(remote', files[to], e);
    }
    forall p, i: nat | p in files && i < |files[p].chunks|
      ensures Fetch(remote', files[p].chunks[i]) == Fetch(remote, files[p].chunks[i])
    {
      assert EntryReadable(remote, files[p]);
      FetchGrows(remote, remote', files[p], i);
    }
  }

  /** The entry with which what will be stored at the path begins. */
  function StartingEntry(files: Files, p: string): FileEntry {
    if p in files then files[p].(isFolder := false) else FileEntry([], 0, "", false, false)
  }

  lemma StartingEntryIsLater(files: Files, remote: Remote, p: string)
    requires Readable(files, remote)
    ensures Later(files, remote, p, remote, StartingEntry(files, p))
    ensures Text(remote, StartingEntry(files, p)) == if p in files then Text(remote, files[p]) else []
  {
    assert p in files ==> EntryReadable(remote, files[p]);
  }

  lemma MustStayRight(files: Files, remote: Remote, to: string, data: Bytes)
    requires Readable(files, remote)
    requires forall remote', e :: Later(files, remote, to, remote', e) ==> KeyServed(files[to := e], remote', to, data)
    ensures WholeStaysRight(files, remote, to, data) && RightAsChunk(files, remote, to, data)
  {
    var e := StartingEntry(files, to);
    StartingEntryIsLater(files, remote, to);
    assert KeyServed(files[to := e], remote, to, data);
    forall p, i: nat | p in files && !files[p].isFolder && i < |files[p].chunks| && to == ChunkKey(p, i) && data != []
      ensures Fetch(remote, files[p].chunks[i]) == Ok(data)
    {
      assert p in files[to := e] && files[to := e][p] == files[p];
    }
    var stored := Text(remote, e);
    if |stored| < MAX_FULL_FILE_RAM_BUFFER && !(data <= stored) {
      assert stored < data;
      var b: byte := if data[|stored|] == 0 then 1 else 0;
      var remote', e' := AppendByte(remote, e, b);
      assert !Agree(data, stored + [b]) by {
        assert (stored + [b])[|stored|] != data[|stored|];
      }
      assert Later(files, remote, to, remote', e');
    }
  }

  /** For a new name that is not stored, only a carried blob that was cleared again is harmless, or an empty one. */
  lemma FailedRenameToFreeNameIff(files: Files, remote: Remote, blobs: Blobs, from: string, to: string)
    requires Readable(files, remote) && from in blobs && to !in files && !IsStoredChunkKey(files, to)
    ensures NeverMisleads(files, remote, to, CarriedOver(blobs, from, to, true))
            <==> ClearedWith(from, to) || blobs[from] == []
  {
    FailedRenameStaysRightIff(files, remote, blobs, from, to);
    assert RightAsChunk(files, remote, to, blobs[from]);
  }

  // ---------------------------------------------------------------- a rename onto a stored file

  /**
   What may be left in the cache of the file that was stored at the new name, and was not cleared with the old name, is
   right for the file that is moved there.
   */
  ghost predicate LeftoversFit(files: Files, remote: Remote, from: string, to: string)
    requires from in files && to in files
  {
    var under, moved := files[to], files[from];
    && (forall i: nat :: i < |under.chunks| && i < |moved.chunks| && !ClearedWith(from, ChunkKey(to, i)) ==>
          Fetch(remote, moved.chunks[i]) == Fetch(remote, under.chunks[i]))
    && (!ClearedWith(from, to) && 0 < |Text(remote, under)| <= MAX_FULL_FILE_RAM_BUFFER && |Text(remote, moved)| <= MAX_FULL_FILE_RAM_BUFFER ==>
          Agree(Text(remote, under), Text(remote, moved)))
  }

  /** One file is renamed onto another. */
  ghost predicate RenamesOnto(files: Files, remote: Remote, from: string, to: string, now: int) {
    && from in files && to in files && !files[from].isFolder && !files[to].isFolder && Unrelated(from, to)
    && Readable(files, remote) && NoSharedKeys(files) && NoSharedKeys(Renamed(files, from, to, now))
  }

  /**
   A rename clears nothing of what is cached for the new name. After renaming a file onto another, whatever reads had
   cached and whether or not the old name's blob was live, reads are right exactly when the leftovers fit.
   */
  lemma RenameOntoReadsRightIff(files: Files, remote: Remote, from: string, to: string, now: int)
    requires RenamesOnto(files, remote, from, to, now)
    ensures (forall blobs, live :: Built(files, remote, blobs) ==>
               ReadsRight(Renamed(files, from, to, now), remote, CarriedOver(blobs, from, to, live)))
            <==> LeftoversFit(files, remote, from, to)
  {
    var after := Renamed(files, from, to, now);
    if LeftoversFit(files, remote, from, to) {
      forall blobs, live | Built(files, remote, blobs)
        ensures ReadsRight(after, remote, CarriedOver(blobs, from, to, live))
      {
        LeftoversServe(files, remote, blobs, from, to, now, live);
      }
    }
    if forall blobs, live :: Built(files, remote, blobs) ==> ReadsRight(after, remote, CarriedOver(blobs, from, to, live)) {
      RenamedOnto(files, from, to, now);
      forall i: nat | i < |files[to].chunks| && i < |files[from].chunks| && !ClearedWith(from, ChunkKey(to, i))
        ensures Fetch(remote, files[from].chunks[i]) == Fetch(remote, files[to].chunks[i])
      {
        OldChunkLeft(files, remote, from, to, now, i);
      }
      if !ClearedWith(from, to) && 0 < |Text(remote, files[to])| <= MAX_FULL_FILE_RAM_BUFFER {
        OldWholeLeft(files, remote, from, to, now);
      }
    }
  }

  lemma RenamedOnto(files: Files, from: string, to: string, now: int)
    requires from in files && to in files && !files[from].isFolder && Unrelated(from, to)
    ensures var after := Renamed(files, from, to, now);
            && to in after && after[to] == files[from]
            && forall k :: k in after && k != to ==> (k in files && k != from && after[k] == files[k]) || after[k] == FolderMarker(now)
  {
    RenamedEntries(files, from, to, now);
    assert Subtree(files, from) == {from};
    assert NewName(files, from, to, from) == to by {
      assert from[|from|..] == "";
    }
  }

  lemma OldChunkLeft(files: Files, remote: Remote, from: string, to: string, now: int, i: nat)
    requires RenamesOnto(files, remote, from, to, now) && i < |files[to].chunks| && i < |files[from].chunks|
    requires !ClearedWith(from, ChunkKey(to, i))
    requires forall blobs, live :: Built(files, remote, blobs) ==>
               ReadsRight(Renamed(files, from, to, now), remote, CarriedOver(blobs, from, to, live))
    ensures Fetch(remote, files[from].chunks[i]) == Fetch(remote, files[to].chunks[i])
  {
    RenamedOnto(files, from, to, now);
    assert EntryReadable(remote, files[to]);
    ChunkIsNotEmpty(remote, files[to], i);
    OneChunkBuilt(files, remote, to, i);
    var blobs: Blobs := map[ChunkKey(to, i) := Fetch(remote, files[to].chunks[i]).value];
    assert CarriedOver(blobs, from, to, false) == blobs;
    assert ReadsRight(Renamed(files, from, to, now), remote, blobs);
    ReadsRightByPath(Renamed(files, from, to, now), remote, blobs);
    assert EntryServed(remote, blobs, to, files[from]);
  }

  lemma OldWholeLeft(files: Files, remote: Remote, from: string, to: string, now: int)
    requires RenamesOnto(files, remote, from, to, now) && !ClearedWith(from, to)
    requires 0 < |Text(remote, files[to])| <= MAX_FULL_FILE_RAM_BUFFER
    requires forall blobs, live :: Built(files, remote, blobs) ==>
               ReadsRight(Renamed(files, from, to, now), remote, CarriedOver(blobs, from, to, live))
    ensures |Text(remote, files[from])| <= MAX_FULL_FILE_RAM_BUFFER ==> Agree(Text(remote, files[to]), Text(remote, files[from]))
  {
    RenamedOnto(files, from, to, now);
    WholeBuilt(files, remote, to);
    var blobs: Blobs := map[to := Text(remote, files[to])];
    assert CarriedOver(blobs, from, to, false) == blobs;
    assert ReadsRight(Renamed(files, from, to, now), remote, blobs);
    ReadsRightByPath(Renamed(files, from, to, now), remote, blobs);
    assert EntryServed(remote, blobs, to, files[from]);
  }

  lemma LeftoversServe(files: Files, remote: Remote, blobs: Blobs, from: string, to: string, now: int, live: bool)
    requires RenamesOnto(files, remote, from, to, now) && LeftoversFit(files, remote, from, to) && Built(files, remote, blobs)
    ensures ReadsRight(Renamed(files, from, to, now), remote, CarriedOver(blobs, from, to, live))
  {
    var after, kept := Renamed(files, from, to, now), CarriedOver(blobs, from, to, live);
    RenamedOnto(files, from, to, now);
    BuiltIsSound(files, remote, blobs);
    ReadsRightByPath(after, remote, kept);
    forall p | p in after
      ensures EntryServed(remote, kept, p, after[p])
    {
      if p == to {
        MovedFileServed(files, remote, blobs, from, to, now, live);
      } else if !after[p].isFolder {
        OtherFileServed(files, remote, blobs, from, to, live, p);
      }
    }
  }

  lemma MovedFileServed(files: Files, remote: Remote, blobs: Blobs, from: string, to: string, now: int, live: bool)
    requires RenamesOnto(files, remote, from, to, now) && LeftoversFit(files, remote, from, to)
    requires Built(files, remote, blobs) && Sound(files, remote, blobs)
    ensures EntryServed(remote, CarriedOver(blobs, from, to, live), to, files[from])
  {
    var kept, e := CarriedOver(blobs, from, to, live), files[from];
    if to in kept {
      if live && from in blobs {
        WholeHit(files, remote, blobs, from);
      } else {
        BuiltUnderPath(files, remote, blobs, to);
      }
    }
    forall i: nat | i < |e.chunks| && ChunkKey(to, i) in kept
      ensures Fetch(remote, e.chunks[i]) == Ok(kept[ChunkKey(to, i)])
    {
      LeftoverChunk(files, remote, blobs, from, to, now, i);
    }
  }

  /** In a cache that reads have built, a stored path has all of its file, or nothing. */
  lemma BuiltUnderPath(files: Files, remote: Remote, blobs: Blobs, p: string)
    requires Built(files, remote, blobs) && NoSharedKeys(files) && p in files && p in blobs
    ensures blobs[p] == Text(remote, files[p]) && 0 < |blobs[p]| <= MAX_FULL_FILE_RAM_BUFFER
  {
    assert !IsStoredChunkKey(files, p);
    assert BuiltKey(files, remote, p, blobs[p]);
  }

  lemma LeftoverChunk(files: Files, remote: Remote, blobs: Blobs, from: string, to: string, now: int, i: nat)
    requires RenamesOnto(files, remote, from, to, now) && LeftoversFit(files, remote, from, to) && Sound(files, remote, blobs)
    requires i < |files[from].chunks| && ChunkKey(to, i) in blobs && !ClearedWith(from, ChunkKey(to, i))
    ensures Fetch(remote, files[from].chunks[i]) == Ok(blobs[ChunkKey(to, i)])
  {
    var key, after := ChunkKey(to, i), Renamed(files, from, to, now);
    RenamedOnto(files, from, to, now);
    assert IsStoredChunkKey(after, key);
    StillStored(files, from, to, now, key);
    assert KeyRight(files, remote, key, blobs[key]);
    KeyOfOneChunk(files, remote, to, i, blobs[key]);
  }

  /** Every stored name but the old one is still stored. */
  lemma StillStored(files: Files, from: string, to: string, now: int, key: string)
    requires from in files && to in files && !files[from].isFolder && Unrelated(from, to)
    ensures key in files && key != from ==> key in Renamed(files, from, to, now)
  {
    assert Subtree(files, from) == {from};
  }

  lemma OtherFileServed(files: Files, remote: Remote, blobs: Blobs, from: string, to: string, live: bool, p: string)
    requires from in files && to in files && p in files && p != to && NoSharedKeys(files) && Sound(files, remote, blobs)
    ensures EntryServed(remote, CarriedOver(blobs, from, to, live), p, files[p])
  {
    var kept := CarriedOver(blobs, from, to, live);
    if p in kept {
      WholeHit(files, remote, blobs, p);
    }
    forall i: nat | i < |files[p].chunks| && ChunkKey(p, i) in kept
      ensures Fetch(remote, files[p].chunks[i]) == Ok(kept[ChunkKey(p, i)])
    {
      assert IsStoredChunkKey(files, ChunkKey(p, i));
      ChunkHit(files, remote, blobs, p, i);
    }
  }

  /** The mark does not overlap itself by more than its dots. */
  lemma MarksApart(key: string, a: nat, b: nat)
    requires a < b && b + |MARK| <= |key| && key[a..a + |MARK|] == MARK && key[b..b + |MARK|] == MARK
    ensures a + 6 <= b
  {
    assert key[b] == key[b..b + |MARK|][0] == '.';
    forall k | a < k < a + 6
      ensures key[k] != '.'
    {
      assert key[k] == key[a..a + |MARK|][k - a] == MARK[k - a];
    }
  }

  /** Nothing that looks like the mark comes after the last one. */
  lemma NoMarkAfter(key: string, a: nat, b: nat)
    requires a + |MARK| <= |key| && b + |MARK| <= |key| && key[a..a + |MARK|] == MARK && key[b..b + |MARK|] == MARK
    requires forall k :: b + |MARK| <= k < |key| ==> IsDigit(key[k])
    ensures a + 6 <= b || a == b
  {
    assert key[a + 1] == key[a..a + |MARK|][1] == 'c';
    if a < b {
      MarksApart(key, a, b);
    } else if b < a {
      MarksApart(key, b, a);
    }
  }

  /** Renaming clears no chunk of another file, whose name is not the old one followed by the mark. */
  lemma OtherNameKept(from: string, to: string, i: nat)
    requires Unrelated(from, to) && !(from + ".chunk" <= to) && ChunkKey(to, i) != from
    ensures !ClearedWith(from, ChunkKey(to, i))
  {
    var key := ChunkKey(to, i);
    var n := |to| + |MARK|;
    assert key[|to|..n] == MARK && key[n..] == Decimal(i) && key[..|to|] == to && key[..n] == to + MARK;
    forall k | n <= k < |key|
      ensures IsDigit(key[k])
    {
      assert key[k] == key[n..][k - n];
    }
    if Under(from, key) {
      NoSlashAfter(from, to, key);
    }
    if from + MARK <= key {
      MarkInName(from, to, key);
    }
  }

  lemma MarkInName(from: string, to: string, key: string)
    requires from + MARK <= key && to + MARK <= key && forall k :: |to + MARK| <= k < |key| ==> IsDigit(key[k])
    ensures from == to || from + ".chunk" <= to
  {
    var a, b := |from|, |to|;
    assert key[..a] == (from + MARK)[..a] == from && key[..b] == (to + MARK)[..b] == to;
    assert key[a..a + |MARK|] == (from + MARK)[a..] == MARK && key[b..b + |MARK|] == (to + MARK)[b..] == MARK;
    NoMarkAfter(key, a, b);
    assert from + ".chunk" == (from + MARK)[..a + 6] == key[..a + 6];
  }

  /** Neither the mark nor a number has a slash. */
  lemma NoSlashAfter(from: string, to: string, key: string)
    requires Under(from, key) && to + MARK <= key && forall k :: |to + MARK| <= k < |key| ==> IsDigit(key[k])
    ensures Under(from, to)
  {
    assert key[|from|] == (from + "/")[|from|] == '/';
    forall k | |to| <= k < |to + MARK|
      ensures key[k] != '/'
    {
      assert key[k] == (to + MARK)[k] == MARK[k - |to|];
    }
    assert from + "/" == key[..|from| + 1] == to[..|from| + 1];
  }

  /**
   Unless the new name is the old one and something that begins with ".chunk", that is as for overwriting: exactly when,
   as far as both files go, their chunks have the same contents.
   */
  lemma RenameOntoOtherIff(files: Files, remote: Remote, from: string, to: string, now: int)
    requires RenamesOnto(files, remote, from, to, now) && !(from + ".chunk" <= to)
    ensures (forall blobs, live :: Built(files, remote, blobs) ==>
               ReadsRight(Renamed(files, from, to, now), remote, CarriedOver(blobs, from, to, live)))
            <==> CommonStart(remote, files[to], files[from])
  {
    RenameOntoReadsRightIff(files, remote, from, to, now);
    forall i: nat | i < |files[to].chunks|
      ensures !ClearedWith(from, ChunkKey(to, i))
    {
      assert IsStoredChunkKey(files, ChunkKey(to, i));
      OtherNameKept(from, to, i);
    }
    assert EntryReadable(remote, files[from]) && EntryReadable(remote, files[to]);
    if CommonStart(remote, files[to], files[from]) {
      CommonStartAgree(remote, files[to], files[from]);
    }
  }

  // ---------------------------------------------------------------- concrete inputs

  /** "a" holds the byte 1, "b" the byte 2: after reading "a", a failed rename of "a.chunk.0" to "b" makes "b" read as 1. */
  lemma FailedRenameServesOtherFile()
    ensures var files: Files := map["a" := OneByteFile(1, 1), "b" := OneByteFile(2, 2)];
            var blobs: Blobs := map["a.chunk.0" := [1]];
            var after := CarriedOver(blobs, "a.chunk.0", "b", true);
            && Readable(files, TwoMessages()) && Built(files, TwoMessages(), blobs) && "a.chunk.0" !in files
            && ServedRange(files, TwoMessages(), after, "b", 0, 1) == Some([1]) && Text(TwoMessages(), files["b"]) == [2]
  {
    OneByteFileReads(1, 1);
    OneByteFileReads(2, 2);
    FirstChunkKey();
    var files: Files := map["a" := OneByteFile(1, 1), "b" := OneByteFile(2, 2)];
    var blobs: Blobs := map["a.chunk.0" := [1]];
    OneChunkBuilt(files, TwoMessages(), "a", 0);
    var after := CarriedOver(blobs, "a.chunk.0", "b", true);
    assert !ClearedWith("a.chunk.0", "b");
    assert "b" in after && after["b"] == [1];
    assert after["b"][0..1] == [1];
  }

  /** "a" holds the byte 1: after reading it and a failed rename of "a.chunk.0" to "new", the byte 2 stored at "new" reads as 1. */
  lemma FailedRenameServesNextUpload()
    ensures var files: Files := map["a" := OneByteFile(1, 1)];
            var after := CarriedOver(map["a.chunk.0" := [1]], "a.chunk.0", "new", true);
            var files' := files["new" := OneByteFile(2, 2)];
            && Readable(files', TwoMessages()) && Built(files, TwoMessages(), map["a.chunk.0" := [1]]) && "a.chunk.0" !in files
            && ReadsRight(files, TwoMessages(), after) && Text(TwoMessages(), files'["new"]) == [2]
            && ServedRange(files', TwoMessages(), after, "new", 0, 1) == Some([1])
  {
    OneByteFileReads(1, 1);
    OneByteFileReads(2, 2);
    FirstChunkKey();
    var files: Files := map["a" := OneByteFile(1, 1)];
    var blobs: Blobs := map["a.chunk.0" := [1]];
    OneChunkBuilt(files, TwoMessages(), "a", 0);
    var after := CarriedOver(blobs, "a.chunk.0", "new", true);
    assert !ClearedWith("a.chunk.0", "new");
    assert after == map["new" := [1]];
    assert after["new"][0..1] == [1];
    assert ChunkKey("a", 0) != "new";
    ReadsRightByKey(files, TwoMessages(), after);
  }

  /** "a" holds the byte 1, "b" the byte 2: after reading "b" and renaming "a" to "b", "b" still reads as 2. */
  lemma RenameOntoServesOldByte(now: int)
    ensures var files: Files := map["a" := OneByteFile(1, 1), "b" := OneByteFile(2, 2)];
            var after, blobs := Renamed(files, "a", "b", now), CarriedOver(map["b.chunk.0" := [2]], "a", "b", false);
            && Readable(files, TwoMessages()) && Built(files, TwoMessages(), map["b.chunk.0" := [2]])
            && "b" in after && after["b"] == files["a"] && Text(TwoMessages(), after["b"]) == [1]
            && ServedChunk(after, TwoMessages(), blobs, "b", 0) == Ok([2])
  {
    OneByteFileReads(1, 1);
    OneByteFileReads(2, 2);
    assert Decimal(0) == "0";
    assert ChunkKey("b", 0) == "b.chunk.0";
    var files: Files := map["a" := OneByteFile(1, 1), "b" := OneByteFile(2, 2)];
    var blobs: Blobs := map["b.chunk.0" := [2]];
    OneChunkBuilt(files, TwoMessages(), "b", 0);
    RenamedOnto(files, "a", "b", now);
    assert "b.chunk.0"[0] == 'b' && ("a" + MARK)[0] == ("a" + "/")[0] == 'a';
    assert !ClearedWith("a", "b.chunk.0");
    assert CarriedOver(blobs, "a", "b", false) == blobs;
  }
}
