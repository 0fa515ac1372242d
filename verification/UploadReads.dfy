/**
 What an upload stores, step by step, as seen by reads that go on meanwhile: which of its steps continue the
 stored version, and what a restart and a crash do.
 */
module UploadReads {
  import opened Content
  import opened Plan
  import opened Tree
  import opened CacheKeys
  import opened CachedReads
  import opened ServedReads
  import opened Upload
  import opened UploadSafety
  import opened UploadTheorems

  lemma EntryOkReadable(env: Env, remote: Remote, e: FileEntry, lastCut: int)
    requires env.Valid() && 0 < lastCut && EntryOk(env, remote, e, lastCut)
    ensures EntryReadable(remote, e)
  {
    if e.incomplete {
      HoldsIffDecodes(remote, e.chunks, env.file[..TotalSize(e.chunks)]);
    } else {
      HoldsIffDecodes(remote, e.chunks, env.file);
    }
  }

  /** Whatever an upload has stored for its path can be read, in memory and on disk. */
  lemma StoredIsReadable(env: Env, initial: Option<FileEntry>, states: seq<State>, acts: seq<Action>, k: nat)
    requires IsHistory(env, initial, states, acts) && k < |states|
    ensures states[k].mem != initial ==> states[k].mem.Some? && EntryReadable(states[k].remote, states[k].mem.value)
    ensures states[k].disk != initial ==> states[k].disk.Some? && EntryReadable(states[k].remote, states[k].disk.value)
  {
    HistoryKeepsInv(env, initial, states, acts, k);
    var s := states[k];
    if s.mem != initial {
      EntryOkReadable(env, s.remote, s.mem.value, s.lastCut);
    }
    if s.disk != initial {
      EntryOkReadable(env, s.remote, s.disk.value, s.lastCut);
    }
  }

  lemma PrefixIsSameStart(remote: Remote, e: FileEntry, e': FileEntry)
    requires e.chunks <= e'.chunks
    ensures SameStart(remote, e, e') && CommonStart(remote, e', e)
  {
    assert forall i :: 0 <= i < |e.chunks| ==> e'.chunks[i] == e.chunks[i];
  }

  /**
   Recording a chunk, and publishing, store an entry that can be read and continues the one that is stored: they
   meet the condition under which reads stay right.
   */
  lemma StepsOfARunContinue(env: Env, initial: Option<FileEntry>, states: seq<State>, acts: seq<Action>, k: nat)
    requires IsHistory(env, initial, states, acts) && k < |acts|
    requires acts[k].Record? || (acts[k].Finish? && states[k].run.Some? && !states[k].run.value.failed)
    ensures states[k].mem.Some? && states[k + 1].mem.Some?
    ensures EntryReadable(states[k + 1].remote, states[k + 1].mem.value)
    ensures SameStart(states[k + 1].remote, states[k].mem.value, states[k + 1].mem.value)
  {
    var s, s' := states[k], states[k + 1];
    assert Enabled(env, s, acts[k]) && s' == Apply(env, s, acts[k]);
    HistoryKeepsInv(env, initial, states, acts, k);
    if acts[k].Record? {
      PrefixNeverShrinks(env, initial, s, acts[k]);
    } else {
      AllSlotsFilled(env, s.remote, s.run.value);
      assert s.run.value.chunks[..|s.run.value.chunks|] == s.run.value.chunks;
    }
    HistoryKeepsInv(env, initial, states, acts, k + 1);
    EntryOkReadable(env, s'.remote, s'.mem.value, s'.lastCut);
    PrefixIsSameStart(s'.remote, s.mem.value, s'.mem.value);
  }

  /**
   Starting an upload stores an entry that can be read and agrees with the stored one as far as it goes; it
   continues it exactly when the resume check keeps every stored chunk.
   */
  lemma StartAgrees(env: Env, initial: Option<FileEntry>, states: seq<State>, acts: seq<Action>, k: nat)
    requires IsHistory(env, initial, states, acts) && k < |acts| && acts[k].Start?
    ensures states[k + 1].mem.Some? && states[k + 1].run.Some? && EntryReadable(states[k + 1].remote, states[k + 1].mem.value)
    ensures states[k].mem.Some? ==>
              var e, e' := states[k].mem.value, states[k + 1].mem.value;
              && CommonStart(states[k + 1].remote, e, e')
              && (SameStart(states[k + 1].remote, e, e') <==> states[k + 1].run.value.resumeFrom == |e.chunks|)
  {
    var s, s' := states[k], states[k + 1];
    assert Enabled(env, s, acts[k]) && s' == Apply(env, s, acts[k]);
    HistoryKeepsInv(env, initial, states, acts, k + 1);
    EntryOkReadable(env, s'.remote, s'.mem.value, s'.lastCut);
    if s.mem.Some? {
      PrefixIsSameStart(s'.remote, s'.mem.value, s.mem.value);
    }
  }

  /**
   A crash goes back to a start of the chunk list, while the cache is on disk and survives: all reads stay right,
   and the cache stays right for what comes exactly when nothing is cached of the lost chunks.
   */
  lemma CrashAndTheCache(env: Env, initial: Option<FileEntry>, states: seq<State>, acts: seq<Action>, k: nat,
                         files: Files, blobs: Blobs, p: string)
    requires IsHistory(env, initial, states, acts) && k < |acts| && acts[k].Crash?
    requires states[k].mem.Some? && states[k].mem.value.incomplete
    requires p in files && files[p] == states[k].mem.value && NoSharedKeys(files) && Sound(files, states[k].remote, blobs)
    ensures states[k + 1].mem.Some?
    ensures var e := states[k + 1].mem.value;
            && ReadsRight(files[p := e], states[k + 1].remote, blobs)
            && (Sound(files[p := e], states[k + 1].remote, blobs) <==>
                 && (p in blobs ==> blobs[p] <= Text(states[k + 1].remote, e))
                 && forall i: nat :: |e.chunks| <= i < |files[p].chunks| ==> ChunkKey(p, i) !in blobs)
  {
    var s, s' := states[k], states[k + 1];
    assert Enabled(env, s, acts[k]) && s' == Apply(env, s, acts[k]);
    HistoryKeepsInv(env, initial, states, acts, k);
    HistoryKeepsInv(env, initial, states, acts, k + 1);
    CrashLosesOnlyUnsaved(env, initial, s);
    EntryOkReadable(env, s.remote, s.mem.value, s.lastCut);
    EntryOkReadable(env, s'.remote, s'.mem.value, s'.lastCut);
    ShrinkKeepsReads(files, s.remote, blobs, p, s'.mem.value);
    ShrinkKeepsSoundIff(files, s.remote, blobs, p, s'.mem.value);
  }

  /** What is sent again after a crash, with the same chunk size, is what was lost: a cached copy of it is right again. */
  lemma SentAgainIsSame(env: Env, remote: Remote, chunkSize: int, i: nat, cf: ChunkFile, cf': ChunkFile)
    requires env.Valid() && SlotOk(env, remote, chunkSize, i, cf) && SlotOk(env, remote, chunkSize, i, cf')
    ensures Fetch(remote, cf) == Fetch(remote, cf') && Fetch(remote, cf).Ok?
  {
  }
}
