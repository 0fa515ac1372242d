/**
 The upload loop as the code runs it: the shared chunk array, the first error and the storage maps are
 updated in place. Each critical section does exactly one step of the transition system in `Upload`.
 */
module UploadLoops {
  import opened Content
  import opened Paths
  import opened Plan
  import opened Tree
  import opened Upload
  import opened UploadTheorems
  import opened StorageDb

  function Lookup(files: Files, p: string): Option<FileEntry> {
    if p in files then Some(files[p]) else None
  }

  /**
   The state agrees with what storage has for the path, in memory and on disk. Storage may also be due for a
   save because of other paths.
   */
  predicate StoredAs(s: State, files: Files, disk: Files, dirty: bool, p: string) {
    s.mem == Lookup(files, p) && s.disk == Lookup(disk, p) && (s.dirty ==> dirty)
  }

  /**
   From the start of an upload to its end no listing and no count, of memory or of the storage file,
   shows the path: they are what they would be if the path were not stored at all.
   */
  lemma UploadIsNotListed(env: Env, initial: Option<FileEntry>, states: seq<State>, acts: seq<Action>, k: nat,
                          files: Files, disk: Files, p: string, d: string)
    requires IsHistory(env, initial, states, acts) && k < |states| && states[k].run.Some?
    requires StoredAs(states[k], files, disk, states[k].dirty, p)
    ensures Children(files, d) == Children(files - {p}, d) && Children(disk, d) == Children(disk - {p}, d)
    ensures forall folders :: VisibleBelow(files, d, folders) == VisibleBelow(files - {p}, d, folders)
    ensures forall folders :: VisibleBelow(disk, d, folders) == VisibleBelow(disk - {p}, d, folders)
  {
    HiddenWhileUploading(env, initial, states, acts, k);
    IncompleteIsInvisible(files, p, files[p], d);
    IncompleteIsInvisible(disk, p, disk[p], d);
    assert files[p := files[p]] == files && disk[p := disk[p]] == disk;
  }

  /** One blank slot per planned chunk, the kept chunks copied in. */
  method MakeSlots(kept: seq<ChunkFile>, k: nat, n: nat) returns (slots: array<ChunkFile>)
    requires k <= |kept| && k <= n
    ensures fresh(slots) && slots[..] == kept[..k] + Blanks(n - k)
  {
    slots := new ChunkFile[n](_ => BLANK_CHUNK);
    for i := 0 to k
      invariant slots[..i] == kept[..i]
      invariant forall j :: i <= j < n ==> slots[j] == BLANK_CHUNK
    {
      slots[i] := kept[i];
    }
  }

  class UploadLoop {
    const storage: Storage
    const path: string
    const resumeFrom: nat
    const plans: seq<ChunkPlan>
    /** One slot per planned chunk, shared by the workers under the lock. */
    const chunks: array<ChunkFile>
    var firstErr: Option<Error>

    ghost predicate Shows(s: State)
      reads this, storage, chunks
    {
      && IsClean(path)
      && s.run.Some?
      && s.run.value.chunks == chunks[..]
      && s.run.value.resumeFrom == resumeFrom
      && s.run.value.failed == firstErr.Some?
      && StoredAs(s, storage.files, storage.disk, storage.dirty, path)
    }

    /** Lay out the chunks, decide where to resume, and store the kept ones as an incomplete entry. */
    constructor (storage: Storage, path: string, totalSize: int, chunkSetting: int, concurrencySetting: int, limitKBps: int,
                 now: int, ghost env: Env, ghost s: State)
      requires IsClean(path) && env.Valid() && totalSize == |env.file| && s.run.None?
      requires StoredAs(s, storage.files, storage.disk, storage.dirty, path)
      modifies storage
      ensures this.storage == storage && this.path == path && fresh(chunks)
      ensures Shows(Apply(env, s, Start(chunkSetting, concurrencySetting, limitKBps)))
      ensures plans == Cut(totalSize, ClampChunkSize(chunkSetting)) && |plans| == chunks.Length
      ensures storage.files == WithAncestors(old(storage.files)[path := FileEntry(chunks[..resumeFrom], 0, "", false, true)], path, now)
      ensures storage.disk == storage.files && !storage.dirty
    {
      var chunkSize := ClampChunkSize(chunkSetting);
      var plans := PlanChunks(totalSize, chunkSize);
      var existing := storage.GetEntry(path);
      var resumeChunks := if existing.Some? && existing.value.incomplete then existing.value.chunks else [];
      var k := CheckResume(resumeChunks, plans, totalSize, chunkSize);
      var slots := MakeSlots(resumeChunks, k, |plans|);
      this.storage, this.path, this.plans, this.resumeFrom, this.chunks := storage, path, plans, k, slots;
      firstErr := None;
      new;
      storage.AddFile(PartialEntry(chunks[..resumeFrom]), path, now);
    }

    /** Count the finished slots from the left. */
    method ContiguousPrefix() returns (contig: nat)
      ensures contig == Contiguous(chunks[..])
    {
      contig := 0;
      while contig < chunks.Length && chunks[contig].hash != ""
        invariant contig <= chunks.Length
        invariant Contiguous(chunks[..]) == ContiguousFrom(chunks[..], contig)
      {
        contig := contig + 1;
      }
    }

    /**
     A worker has sent chunk `i`: fill its slot and store the longest finished prefix, to be saved later.
     No other slot changes, so the kept chunks, which storage still shares, stay as they were.
     */
    method Record(i: nat, cf: ChunkFile, now: int, ghost env: Env, ghost s: State)
      requires Shows(s) && Enabled(env, s, Action.Record(i)) && s.run.value.workers[i].cf == cf
      modifies chunks, storage`files, storage`dirty
      ensures Shows(Apply(env, s, Action.Record(i)))
      ensures chunks[..] == old(chunks[..])[i := cf]
      ensures exists k: nat :: k <= chunks.Length
                && (forall j :: 0 <= j < k ==> chunks[j].hash != "") && (k < chunks.Length ==> chunks[k].hash == "")
                && storage.files == WithAncestors(old(storage.files)[path := FileEntry(chunks[..k], 0, "", false, true)], path, now)
      ensures storage.dirty
    {
      chunks[i] := cf;
      var contig := ContiguousPrefix();
      assert forall j :: 0 <= j < chunks.Length ==> chunks[..][j] == chunks[j];
      assert chunks[..][..contig] == chunks[..contig];
      storage.AddFileAsync(PartialEntry(chunks[..contig]), path, now);
    }

    /** Remember the first error only. */
    method Fail(i: nat, err: Error, ghost env: Env, ghost s: State)
      requires Shows(s) && Enabled(env, s, Action.Fail(i))
      modifies this`firstErr
      ensures Shows(Apply(env, s, Action.Fail(i)))
      ensures firstErr == if old(firstErr).Some? then old(firstErr) else Some(err)
    {
      if firstErr.None? {
        firstErr := Some(err);
      }
    }

    /** After the wait: report the first error and leave storage alone, or store and save the complete entry. */
    method Publish(now: int, ghost env: Env, ghost s: State) returns (r: Option<Error>)
      requires Shows(s) && Enabled(env, s, Finish(now))
      modifies storage
      ensures r == firstErr
      ensures var after := Apply(env, s, Finish(now));
              StoredAs(after, storage.files, storage.disk, storage.dirty, path)
      ensures r.Some? ==> storage.files == old(storage.files) && storage.disk == old(storage.disk)
      ensures r.None? ==>
                storage.files == WithAncestors(old(storage.files)[path := FileEntry(chunks[..], now, HashChunkHashes(chunks[..]), false, false)], path, now)
      ensures r.None? ==> storage.disk == storage.files
    {
      if firstErr.Some? {
        return firstErr;
      }
      storage.AddFile(CompleteEntry(chunks[..], now), path, now);
      return None;
    }
  }
}
