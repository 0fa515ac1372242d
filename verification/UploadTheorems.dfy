/** The promises of the upload, over whole runs. */
module UploadTheorems {
  import opened Content
  import opened Plan
  import opened Upload
  import opened UploadSafety

  /** A history of the path: any interleaving of enabled steps from a saved, complete (or absent) entry. */
  ghost predicate IsHistory(env: Env, initial: Option<FileEntry>, states: seq<State>, acts: seq<Action>) {
    && |states| == |acts| + 1
    && Init(env, initial, states[0])
    && forall k {:trigger acts[k]} :: 0 <= k < |acts| ==> Enabled(env, states[k], acts[k]) && states[k + 1] == Apply(env, states[k], acts[k])
  }

  lemma {:induction false} HistoryKeepsInv(env: Env, initial: Option<FileEntry>, states: seq<State>, acts: seq<Action>, k: nat)
    requires IsHistory(env, initial, states, acts) && k < |states|
    ensures Inv(env, initial, states[k])
  {
    if k != 0 {
      HistoryKeepsInv(env, initial, states, acts, k - 1);
      assert Enabled(env, states[k - 1], acts[k - 1]);
      StepKeepsInv(env, initial, states[k - 1], acts[k - 1]);
    }
  }

  // ---------------------------------------------------------------- safety

  /** What an entry written by an upload decodes to. */
  ghost predicate DecodesFile(env: Env, remote: Remote, e: FileEntry) {
    if e.incomplete then
      0 <= TotalSize(e.chunks) <= |env.file| && Decode(remote, e.chunks) == Ok(env.file[..TotalSize(e.chunks)])
    else
      Decode(remote, e.chunks) == Ok(env.file)
  }

  /**
   In every history, whatever is stored for the path, in memory or on disk, is what was there before
   the first upload, or an incomplete entry that decodes to exactly the first `TotalSize` bytes of the
   file, or a complete entry that decodes to the whole file.
   */
  lemma StoredEntriesDecode(env: Env, initial: Option<FileEntry>, states: seq<State>, acts: seq<Action>, k: nat)
    requires IsHistory(env, initial, states, acts) && k < |states|
    ensures var s := states[k];
            && (s.mem != initial ==> s.mem.Some? && DecodesFile(env, s.remote, s.mem.value))
            && (s.disk != initial ==> s.disk.Some? && DecodesFile(env, s.remote, s.disk.value))
  {
    var s := states[k];
    HistoryKeepsInv(env, initial, states, acts, k);
    if s.mem != initial {
      EntryDecodes(env, s.remote, s.mem.value, s.lastCut);
    }
    if s.disk != initial {
      EntryDecodes(env, s.remote, s.disk.value, s.lastCut);
    }
  }

  lemma EntryDecodes(env: Env, remote: Remote, e: FileEntry, lastCut: int)
    requires env.Valid() && 0 < lastCut && EntryOk(env, remote, e, lastCut)
    ensures DecodesFile(env, remote, e)
  {
    if e.incomplete {
      HoldsIffDecodes(remote, e.chunks, env.file[..TotalSize(e.chunks)]);
    } else {
      HoldsIffDecodes(remote, e.chunks, env.file);
    }
  }

  /** While an upload runs, the path's entry is incomplete both in memory and on disk. */
  lemma HiddenWhileUploading(env: Env, initial: Option<FileEntry>, states: seq<State>, acts: seq<Action>, k: nat)
    requires IsHistory(env, initial, states, acts) && k < |states|
    requires states[k].run.Some?
    ensures states[k].mem.Some? && states[k].mem.value.incomplete
    ensures states[k].disk.Some? && states[k].disk.value.incomplete
  {
    HistoryKeepsInv(env, initial, states, acts, k);
  }

  ghost predicate Visible(stored: Option<FileEntry>) {
    stored.Some? && !stored.value.incomplete
  }

  /**
   A file appears all at once: the only step that makes a hidden path visible, in memory or on disk, is
   the end of a run without error; it fills every slot, stores the whole file and saves it.
   */
  lemma AppearsOnlyWhenComplete(env: Env, initial: Option<FileEntry>, states: seq<State>, acts: seq<Action>, k: nat)
    requires IsHistory(env, initial, states, acts) && k < |acts|
    requires (Visible(states[k + 1].mem) && !Visible(states[k].mem)) || (Visible(states[k + 1].disk) && !Visible(states[k].disk))
    ensures acts[k].Finish?
    ensures states[k].run.Some? && !states[k].run.value.failed
    ensures forall i :: 0 <= i < |states[k].run.value.chunks| ==> states[k].run.value.chunks[i].hash != ""
    ensures states[k + 1].mem.Some? && states[k + 1].disk == states[k + 1].mem
    ensures states[k + 1].mem.value.chunks == states[k].run.value.chunks
    ensures Decode(states[k + 1].remote, states[k + 1].mem.value.chunks) == Ok(env.file)
    ensures states[k + 1].mem.value == FileEntry(states[k].run.value.chunks, acts[k].now, HashChunkHashes(states[k].run.value.chunks), false, false)
  {
    HistoryKeepsInv(env, initial, states, acts, k);
    var s := states[k];
    assert states[k + 1] == Apply(env, s, acts[k]);
    if acts[k].Finish? && !s.run.value.failed {
      AllSlotsFilled(env, s.remote, s.run.value);
      HoldsIffDecodes(s.remote, s.run.value.chunks, env.file);
    }
  }

  /** Conversely, a run whose workers are all gone publishes the whole file exactly when none of them failed. */
  lemma PublishesIffNoFailure(env: Env, initial: Option<FileEntry>, s: State, now: int)
    requires Inv(env, initial, s) && Enabled(env, s, Finish(now))
    ensures var after := Apply(env, s, Finish(now));
            if s.run.value.failed then !Visible(after.mem) && !Visible(after.disk)
            else Visible(after.mem) && Decode(after.remote, after.mem.value.chunks) == Ok(env.file)
  {
    var r := s.run.value;
    if !r.failed {
      AllSlotsFilled(env, s.remote, r);
      HoldsIffDecodes(s.remote, r.chunks, env.file);
    }
  }

  // ---------------------------------------------------------------- progress is kept

  /**
   During a run memory holds the longest finished prefix and disk an earlier one; both only grow, and
   the kept chunks, which storage shares with the worker's array, are never written.
   */
  lemma PrefixNeverShrinks(env: Env, initial: Option<FileEntry>, s: State, a: Action)
    requires Inv(env, initial, s) && Enabled(env, s, a) && s.run.Some?
    requires Apply(env, s, a).run.Some?
    ensures var s' := Apply(env, s, a);
            var r, r' := s.run.value, s'.run.value;
            && s.mem.value.chunks == r.chunks[..Contiguous(r.chunks)]
            && s.mem.value.chunks <= s'.mem.value.chunks
            && s.disk.value.chunks <= s'.disk.value.chunks <= s'.mem.value.chunks
            && r'.resumeFrom == r.resumeFrom && r'.chunks[..r.resumeFrom] == r.chunks[..r.resumeFrom]
  {
    StepKeepsInv(env, initial, s, a);
    StepWrites(env, s, a);
    hide Apply;
    var s' := Apply(env, s, a);
    var r := s.run.value;
    DiskIsPrefix(s', s'.run.value);
    DiskIsPrefix(s, r);
    if a.Record? {
      SlotAt(env, s.remote, r, a.i);
      ContiguousGrows(r.chunks, a.i, r.workers[a.i].cf);
      assert s'.mem.value.chunks[..Contiguous(r.chunks)] == r.chunks[..Contiguous(r.chunks)];
    }
  }

  /** Within a run only `Record` writes a slot or the entry in memory, and disk is written from memory. */
  lemma StepWrites(env: Env, s: State, a: Action)
    requires Enabled(env, s, a) && s.run.Some? && Apply(env, s, a).run.Some?
    ensures var s' := Apply(env, s, a);
            var r, r' := s.run.value, s'.run.value;
            && r'.resumeFrom == r.resumeFrom
            && (if a.Record? then r'.chunks == r.chunks[a.i := r.workers[a.i].cf] else r'.chunks == r.chunks && s'.mem == s.mem)
            && (s'.disk == s.disk || s'.disk == s'.mem)
  {
  }

  lemma DiskIsPrefix(s: State, r: Run)
    requires PersistInv(s, r)
    ensures s.disk.value.chunks <= s.mem.value.chunks
  {
    var d := |s.disk.value.chunks|;
    assert s.mem.value.chunks[..d] == r.chunks[..d];
  }

  /**
   Resuming: whenever no upload runs and an interrupted one is stored, starting again with the chunk
   size of the latest start keeps every stored chunk and schedules exactly the other ones.
   */
  lemma RestartKeepsEverything(env: Env, initial: Option<FileEntry>, states: seq<State>, acts: seq<Action>, k: nat,
                               chunkSetting: int, concurrencySetting: int, limitKBps: int)
    requires IsHistory(env, initial, states, acts) && k < |states|
    requires states[k].run.None? && states[k].mem.Some? && states[k].mem.value.incomplete
    requires ClampChunkSize(chunkSetting) == states[k].lastCut
    ensures var s' := Apply(env, states[k], Start(chunkSetting, concurrencySetting, limitKBps));
            var r := s'.run.value;
            && s'.mem.value.chunks == states[k].mem.value.chunks
            && r.resumeFrom == |states[k].mem.value.chunks|
            && r.chunks[..r.resumeFrom] == states[k].mem.value.chunks
            && |r.workers| - r.next == NumChunks(|env.file|, states[k].lastCut) - |states[k].mem.value.chunks|
  {
    HistoryKeepsInv(env, initial, states, acts, k);
    var s := states[k];
    assert EntryOk(env, s.remote, s.mem.value, s.lastCut);
    ResumeIsComplete(s.mem.value.chunks, |env.file|, s.lastCut);
    assert s.mem.value.chunks[..|s.mem.value.chunks|] == s.mem.value.chunks;
  }

  /** A crash gives up only what was recorded after the last save, and what remains can be continued. */
  lemma CrashLosesOnlyUnsaved(env: Env, initial: Option<FileEntry>, s: State)
    requires Inv(env, initial, s) && s.mem.Some? && s.mem.value.incomplete
    ensures var s' := Apply(env, s, Crash);
            && s'.run.None? && s'.mem == s.disk
            && s'.mem.Some? && s'.mem.value.incomplete
            && s'.mem.value.chunks <= s.mem.value.chunks
            && (!s.dirty ==> s'.mem == s.mem)
            && ResumePoint(s'.mem.value.chunks, |env.file|, s'.lastCut) == |s'.mem.value.chunks|
  {
    assert s.disk.value.chunks <= s.mem.value.chunks;
    assert EntryOk(env, s.remote, s.disk.value, s.lastCut);
    ResumeIsComplete(s.disk.value.chunks, |env.file|, s.lastCut);
  }

  /**
   Whatever memory has and disk has not is due for a save, and the saver, which is then ready to run, saves all of it: a
   crash right after it loses nothing.
   */
  lemma SaverSavesEverything(env: Env, initial: Option<FileEntry>, states: seq<State>, acts: seq<Action>, k: nat)
    requires IsHistory(env, initial, states, acts) && k < |states|
    ensures states[k].disk != states[k].mem ==> Enabled(env, states[k], SaverTick)
    ensures Enabled(env, states[k], SaverTick) ==>
              var s' := Apply(env, states[k], SaverTick);
              && s'.disk == s'.mem == states[k].mem
              && !Enabled(env, s', SaverTick)
              && Enabled(env, s', Crash) && Apply(env, s', Crash).mem == states[k].mem
  {
    HistoryKeepsInv(env, initial, states, acts, k);
  }

  // ---------------------------------------------------------------- concurrency and progress

  /** Never more than `concurrency`, itself at most 32, workers hold a slot; the counters are exact. */
  lemma WorkersBounded(env: Env, initial: Option<FileEntry>, states: seq<State>, acts: seq<Action>, k: nat)
    requires IsHistory(env, initial, states, acts) && k < |states| && states[k].run.Some?
    ensures var r := states[k].run.value;
            && Count(r.workers, HoldsSlot) == r.sem <= r.concurrency <= MAX_CONCURRENT_UPLOAD_CHUNKS
            && Count(r.workers, InWaitGroup) == r.wg
  {
    HistoryKeepsInv(env, initial, states, acts, k);
  }
}
