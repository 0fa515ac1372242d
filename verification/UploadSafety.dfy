/** What every run of the upload keeps, whatever the order of completions, saves, failures and crashes. */
module UploadSafety {
  import opened Content
  import opened Plan
  import opened Upload

  // ---------------------------------------------------------------- the invariant

  /** The chunks hold exactly the first `TotalSize(chunks)` bytes of the file. */
  ghost predicate HoldsStart(env: Env, remote: Remote, chunks: seq<ChunkFile>) {
    && 0 <= TotalSize(chunks) <= |env.file|
    && Holds(remote, chunks, env.file[..TotalSize(chunks)])
  }

  /** An entry written by an upload: a whole file, or a prefix that ends on a chunk boundary. */
  ghost predicate EntryOk(env: Env, remote: Remote, e: FileEntry, lastCut: int)
    requires env.Valid() && 0 < lastCut
  {
    && !e.isFolder
    && (e.incomplete ==> HoldsStart(env, remote, e.chunks) && CutBy(e.chunks, |env.file|, lastCut))
    && (!e.incomplete ==> Holds(remote, e.chunks, env.file) && e.fileHash == HashChunkHashes(e.chunks))
  }

  ghost predicate StoredOk(env: Env, initial: Option<FileEntry>, s: State, stored: Option<FileEntry>)
    requires env.Valid() && 0 < s.lastCut
  {
    stored == initial || (stored.Some? && EntryOk(env, s.remote, stored.value, s.lastCut))
  }

  /** Memory and disk agree except for chunks recorded since the last save. */
  ghost predicate StoreInv(env: Env, initial: Option<FileEntry>, s: State)
    requires env.Valid() && 0 < s.lastCut
  {
    && StoredOk(env, initial, s, s.mem)
    && StoredOk(env, initial, s, s.disk)
    && (!s.dirty ==> s.disk == s.mem)
    && (s.dirty ==>
          && s.mem.Some? && s.mem.value.incomplete
          && s.disk.Some? && s.disk.value.incomplete
          && s.disk.value.chunks <= s.mem.value.chunks)
  }

  /** `cf` is a finished upload of planned chunk `i`. */
  ghost predicate SlotOk(env: Env, remote: Remote, chunkSize: int, i: nat, cf: ChunkFile)
    requires env.Valid()
  {
    && cf.size == Boundary(i + 1, chunkSize, |env.file|) - Boundary(i, chunkSize, |env.file|)
    && ChunkHolds(remote, cf, env.file, Boundary(i, chunkSize, |env.file|))
  }

  /** A slot is filled exactly by a worker that recorded it; one left empty belongs to a failed run. */
  ghost predicate SlotInv(env: Env, remote: Remote, r: Run, i: nat)
    requires WellShaped(env, r) && i < |r.workers|
  {
    match r.workers[i]
    case NotSpawned => r.next <= i && r.chunks[i].hash == ""
    case Spawned => i < r.next && r.chunks[i].hash == ""
    case Preparing => i < r.next && r.chunks[i].hash == ""
    case Pacing => i < r.next && r.chunks[i].hash == ""
    case Sending => i < r.next && r.chunks[i].hash == ""
    case Sent(cf) => i < r.next && r.chunks[i].hash == "" && SlotOk(env, remote, r.chunkSize, i, cf)
    case _ => i < r.next && if r.chunks[i].hash == "" then r.failed else SlotOk(env, remote, r.chunkSize, i, r.chunks[i])
  }

  /** The kept chunks end exactly where the first scheduled chunk begins. */
  ghost predicate KeptInv(env: Env, remote: Remote, r: Run)
    requires WellShaped(env, r)
  {
    && 1 <= r.concurrency <= MAX_CONCURRENT_UPLOAD_CHUNKS
    && TotalSize(r.chunks[..r.resumeFrom]) == Boundary(r.resumeFrom, r.chunkSize, |env.file|)
    && HoldsStart(env, remote, r.chunks[..r.resumeFrom])
    && forall i :: 0 <= i < r.resumeFrom ==> r.workers[i].NotSpawned?
  }

  ghost predicate SlotsInv(env: Env, remote: Remote, r: Run)
    requires WellShaped(env, r)
  {
    forall i: nat {:trigger SlotInv(env, remote, r, i)} :: r.resumeFrom <= i < |r.workers| ==> SlotInv(env, remote, r, i)
  }

  /** The semaphore and the wait group count exactly the workers that hold them. */
  ghost predicate CountsInv(r: Run) {
    && r.sem == Count(r.workers, HoldsSlot)
    && r.sem <= r.concurrency
    && r.wg == Count(r.workers, InWaitGroup)
  }

  /** Memory has the longest finished prefix, disk an earlier one; neither loses a kept chunk. */
  ghost predicate PersistInv(s: State, r: Run) {
    && s.lastCut == r.chunkSize
    && r.resumeFrom <= Contiguous(r.chunks)
    && s.mem == Some(PartialEntry(r.chunks[..Contiguous(r.chunks)]))
    && s.disk.Some?
    && r.resumeFrom <= |s.disk.value.chunks| <= Contiguous(r.chunks)
    && s.disk == Some(PartialEntry(r.chunks[..|s.disk.value.chunks|]))
  }

  ghost predicate RunInv(env: Env, s: State, r: Run) {
    && WellShaped(env, r)
    && KeptInv(env, s.remote, r)
    && SlotsInv(env, s.remote, r)
    && CountsInv(r)
    && PersistInv(s, r)
  }

  ghost predicate Inv(env: Env, initial: Option<FileEntry>, s: State) {
    && env.Valid()
    && 0 < s.lastCut
    && (initial.Some? ==> !initial.value.incomplete)
    && StoreInv(env, initial, s)
    && (s.run.Some? ==> RunInv(env, s, s.run.value))
  }

  /** Before the first upload: whatever was stored at the path is complete and saved. */
  ghost predicate Init(env: Env, initial: Option<FileEntry>, s: State) {
    && env.Valid()
    && 0 < s.lastCut
    && (initial.Some? ==> !initial.value.incomplete)
    && s.mem == s.disk == initial
    && !s.dirty
    && s.run.None?
  }

  // ---------------------------------------------------------------- facts about prefixes

  lemma SlotAt(env: Env, remote: Remote, r: Run, i: nat)
    requires WellShaped(env, r) && SlotsInv(env, remote, r) && r.resumeFrom <= i < |r.workers|
    ensures SlotInv(env, remote, r, i)
  {
  }

  lemma KeptAreFilled(env: Env, remote: Remote, chunks: seq<ChunkFile>, k: nat)
    requires k <= |chunks| && HoldsStart(env, remote, chunks[..k])
    ensures k <= Contiguous(chunks)
  {
    var c := Contiguous(chunks);
    if c < k {
      var kept := chunks[..k];
      assert kept[c] == chunks[c];
      HoldsAt(remote, kept, env.file[..TotalSize(kept)], c);
    }
  }

  /** Every finished prefix that covers the kept chunks holds the file up to its chunk boundary. */
  lemma {:induction false} FinishedPrefix(env: Env, remote: Remote, r: Run, j: nat)
    requires WellShaped(env, r) && KeptInv(env, remote, r) && SlotsInv(env, remote, r)
    requires r.resumeFrom <= j <= Contiguous(r.chunks)
    ensures TotalSize(r.chunks[..j]) == Boundary(j, r.chunkSize, |env.file|)
    ensures HoldsStart(env, remote, r.chunks[..j])
  {
    if j > r.resumeFrom {
      FinishedPrefix(env, remote, r, j - 1);
      SlotAt(env, remote, r, j - 1);
      CutTiles(|env.file|, r.chunkSize, j - 1);
      assert r.chunks[..j] == r.chunks[..j - 1] + [r.chunks[j - 1]];
      HoldsAppend(remote, r.chunks[..j - 1], r.chunks[j - 1], env.file);
    }
  }

  lemma FinishedPrefixEntryOk(env: Env, remote: Remote, r: Run, j: nat)
    requires WellShaped(env, r) && KeptInv(env, remote, r) && SlotsInv(env, remote, r)
    requires r.resumeFrom <= j <= Contiguous(r.chunks)
    ensures EntryOk(env, remote, PartialEntry(r.chunks[..j]), r.chunkSize)
  {
    FinishedPrefix(env, remote, r, j);
  }

  // ---------------------------------------------------------------- new messages change nothing

  lemma ChunkHoldsMonotone(remote: Remote, remote': Remote, ch: ChunkFile, data: Bytes, from: int)
    requires Grows(remote, remote') && ChunkHolds(remote, ch, data, from)
    ensures ChunkHolds(remote', ch, data, from)
  {
  }

  lemma EntryOkMonotone(env: Env, remote: Remote, remote': Remote, e: FileEntry, lastCut: int)
    requires env.Valid() && 0 < lastCut && Grows(remote, remote') && EntryOk(env, remote, e, lastCut)
    ensures EntryOk(env, remote', e, lastCut)
  {
    if e.incomplete {
      HoldsMonotone(remote, remote', e.chunks, env.file[..TotalSize(e.chunks)]);
    } else {
      HoldsMonotone(remote, remote', e.chunks, env.file);
    }
  }

  lemma StoreInvMonotone(env: Env, initial: Option<FileEntry>, s: State, s': State)
    requires env.Valid() && 0 < s.lastCut && StoreInv(env, initial, s)
    requires s'.mem == s.mem && s'.disk == s.disk && s'.dirty == s.dirty && s'.lastCut == s.lastCut
    requires Grows(s.remote, s'.remote)
    ensures StoreInv(env, initial, s')
  {
    if s.mem != initial {
      EntryOkMonotone(env, s.remote, s'.remote, s.mem.value, s.lastCut);
    }
    if s.disk != initial {
      EntryOkMonotone(env, s.remote, s'.remote, s.disk.value, s.lastCut);
    }
  }

  lemma SlotInvMonotone(env: Env, remote: Remote, remote': Remote, r: Run, i: nat)
    requires WellShaped(env, r) && i < |r.workers| && Grows(remote, remote') && SlotInv(env, remote, r, i)
    ensures SlotInv(env, remote', r, i)
  {
    var from := Boundary(i, r.chunkSize, |env.file|);
    if r.workers[i].Sent? {
      ChunkHoldsMonotone(remote, remote', r.workers[i].cf, env.file, from);
    } else if r.chunks[i].hash != "" {
      ChunkHoldsMonotone(remote, remote', r.chunks[i], env.file, from);
    }
  }

  lemma RunInvMonotone(env: Env, s: State, s': State, r: Run)
    requires RunInv(env, s, r)
    requires s'.mem == s.mem && s'.disk == s.disk && s'.lastCut == s.lastCut
    requires Grows(s.remote, s'.remote)
    ensures RunInv(env, s', r)
  {
    var kept := r.chunks[..r.resumeFrom];
    HoldsMonotone(s.remote, s'.remote, kept, env.file[..TotalSize(kept)]);
    forall i: nat {:trigger SlotInv(env, s'.remote, r, i)} | r.resumeFrom <= i < |r.workers|
      ensures SlotInv(env, s'.remote, r, i)
    {
      SlotAt(env, s.remote, r, i);
      SlotInvMonotone(env, s.remote, s'.remote, r, i);
    }
  }

  // ---------------------------------------------------------------- one worker moves

  /**
   One worker changes phase, perhaps filling its slot: the run keeps its invariant when the new phase
   fits the slot and the counters follow.
   */
  lemma WorkerMoves(env: Env, remote: Remote, r: Run, r': Run, i: nat, w: Worker, cf: ChunkFile)
    requires WellShaped(env, r) && KeptInv(env, remote, r) && SlotsInv(env, remote, r)
    requires r.resumeFrom <= i < |r.workers|
    requires r' == r.(workers := r.workers[i := w], chunks := r.chunks[i := cf], next := r'.next, failed := r'.failed,
                      sem := r'.sem, wg := r'.wg)
    requires r'.next == if i == r.next then r.next + 1 else r.next
    requires r.failed ==> r'.failed
    requires SlotInv(env, remote, r', i)
    ensures WellShaped(env, r') && KeptInv(env, remote, r') && SlotsInv(env, remote, r')
  {
    assert r'.chunks[..r.resumeFrom] == r.chunks[..r.resumeFrom];
    forall j: nat {:trigger SlotInv(env, remote, r', j)} | r'.resumeFrom <= j < |r'.workers|
      ensures SlotInv(env, remote, r', j)
    {
      SlotAt(env, remote, r, j);
    }
  }

  /** Without a new chunk, what is persisted stays persisted. */
  lemma PersistSame(s: State, r: Run, s': State, r': Run)
    requires PersistInv(s, r)
    requires r'.chunks == r.chunks && r'.resumeFrom == r.resumeFrom && r'.chunkSize == r.chunkSize
    requires s'.mem == s.mem && s'.lastCut == s.lastCut && s'.disk == s.disk
    ensures PersistInv(s', r')
  {
  }

  lemma CountsMove(r: Run, r': Run, i: nat, w: Worker)
    requires CountsInv(r) && i < |r.workers|
    requires r'.workers == r.workers[i := w] && r'.concurrency == r.concurrency
    requires r'.sem == r.sem - (if HoldsSlot(r.workers[i]) then 1 else 0) + (if HoldsSlot(w) then 1 else 0)
    requires r'.wg == r.wg - (if InWaitGroup(r.workers[i]) then 1 else 0) + (if InWaitGroup(w) then 1 else 0)
    requires r'.sem <= r'.concurrency
    ensures CountsInv(r')
  {
    CountUpdate(r.workers, HoldsSlot, i, w);
    CountUpdate(r.workers, InWaitGroup, i, w);
  }

  // ---------------------------------------------------------------- each step keeps the invariant

  /** Worker `i` goes to phase `w`, which fits its slot, and the counters follow; nothing is recorded. */
  lemma MoveKeepsInv(env: Env, initial: Option<FileEntry>, s: State, r': Run, i: nat, w: Worker)
    requires Inv(env, initial, s) && s.run.Some?
    requires var r := s.run.value;
             && r.resumeFrom <= i < |r.workers|
             && r' == r.(workers := r.workers[i := w], next := r'.next, failed := r'.failed, sem := r'.sem, wg := r'.wg)
             && r'.next == (if i == r.next then r.next + 1 else r.next)
             && (r.failed ==> r'.failed)
             && SlotInv(env, s.remote, r', i)
             && r'.sem == r.sem - (if HoldsSlot(r.workers[i]) then 1 else 0) + (if HoldsSlot(w) then 1 else 0)
             && r'.wg == r.wg - (if InWaitGroup(r.workers[i]) then 1 else 0) + (if InWaitGroup(w) then 1 else 0)
             && r'.sem <= r'.concurrency
    ensures Inv(env, initial, s.(run := Some(r')))
  {
    var r, s' := s.run.value, s.(run := Some(r'));
    WorkerMoves(env, s.remote, r, r', i, w, r.chunks[i]);
    CountsMove(r, r', i, w);
    PersistSame(s, r, s', r');
  }

  lemma StepSpawn(env: Env, initial: Option<FileEntry>, s: State)
    requires Inv(env, initial, s) && Enabled(env, s, Spawn)
    ensures Inv(env, initial, Apply(env, s, Spawn))
  {
    var r, r' := s.run.value, Apply(env, s, Spawn).run.value;
    SlotAt(env, s.remote, r, r.next);
    MoveKeepsInv(env, initial, s, r', r.next, Spawned);
  }

  /** The steps that move one worker and record nothing. */
  predicate MovesWorker(a: Action) {
    a.CheckError? || a.Prepare? || a.Pass? || a.Fail? || a.Release? || a.Leave?
  }

  lemma StepWorker(env: Env, initial: Option<FileEntry>, s: State, a: Action)
    requires MovesWorker(a) && Inv(env, initial, s) && Enabled(env, s, a)
    ensures Inv(env, initial, Apply(env, s, a))
  {
    var s' := Apply(env, s, a);
    SlotAt(env, s.remote, s.run.value, a.i);
    MoveKeepsInv(env, initial, s, s'.run.value, a.i, s'.run.value.workers[a.i]);
  }

  /** What a worker sends and records is its planned chunk. */
  lemma SentChunkOk(env: Env, remote: Remote, setting: int, i: nat, messageId: int, password: string)
    requires env.Valid() && 0 <= i < NumChunks(|env.file|, ClampChunkSize(setting)) && password != ""
    ensures var c := ClampChunkSize(setting);
            var cf := SentChunk(env, c, i, messageId, password);
            && SlotOk(env, remote[cf.Ref() := Sealed(password, ChunkBytes(env, c, i))], c, i, cf)
            && cf.chatId == env.chatIds[i % |env.chatIds|] && cf.messageId == messageId && cf.password == password
  {
    var c := ClampChunkSize(setting);
    CutTiles(|env.file|, c, i);
    PlannedSizeFitsInt32(|env.file|, setting, i);
    ChunkHashInjective(ChunkBytes(env, c, i), ChunkBytes(env, c, i));
  }

  /** Chunks go round the chats: two of them go to the same one of different chats exactly when they are whole rounds apart. */
  lemma RoundRobin(env: Env, chunkSize: int, i: nat, j: nat, messageId: int, messageId': int, password: string)
    requires env.Valid() && 0 < chunkSize && i <= j < NumChunks(|env.file|, chunkSize)
    requires forall a, b :: 0 <= a < b < |env.chatIds| ==> env.chatIds[a] != env.chatIds[b]
    ensures SentChunk(env, chunkSize, i, messageId, password).chatId == SentChunk(env, chunkSize, j, messageId', password).chatId
            <==> (j - i) % |env.chatIds| == 0
    ensures i == 0 ==> SentChunk(env, chunkSize, i, messageId, password).chatId == env.chatIds[0]
  {
    hide Cut, ChunkBytes, ToInt32, ChunkHash, NumChunks;
    RoundsApart(i, j, |env.chatIds|);
    var a, b := i % |env.chatIds|, j % |env.chatIds|;
    assert env.chatIds[a] == env.chatIds[b] <==> a == b;
  }

  lemma RoundsApart(i: nat, j: nat, n: nat)
    requires 0 < n && i <= j
    ensures i % n == j % n <==> (j - i) % n == 0
  {
    var d := (j - i) / n;
    assert j - i == d * n + (j - i) % n;
    if (j - i) % n == 0 {
      assert j == (i / n + d) * n + i % n;
      SameRemainder(j, i / n + d, i % n, n);
    }
    if i % n == j % n {
      assert j - i == (j / n - i / n) * n;
      SameRemainder(j - i, j / n - i / n, 0, n);
    }
  }

  lemma SameRemainder(x: int, q: int, r: int, n: int)
    requires 0 <= r < n && x == q * n + r
    ensures x % n == r
  {
    var k := x / n - q;
    assert x == (x / n) * n + x % n;
    assert k * n == (x / n) * n - q * n == r - x % n;
    if 1 <= k {
      ScaleMonotone(1, k, n);
    } else if k <= -1 {
      ScaleMonotone(k, -1, n);
    }
  }

  lemma StepSend(env: Env, initial: Option<FileEntry>, s: State, a: Action)
    requires a.Send? && Inv(env, initial, s) && Enabled(env, s, a)
    ensures Inv(env, initial, Apply(env, s, a))
  {
    var s' := Apply(env, s, a);
    var r, r' := s.run.value, s'.run.value;
    var cf := SentChunk(env, r.chunkSize, a.i, a.messageId, a.password);
    SentChunkOk(env, s.remote, r.chunkSize, a.i, a.messageId, a.password);
    StoreInvMonotone(env, initial, s, s');
    RunInvMonotone(env, s, s.(remote := s'.remote), r);
    SlotAt(env, s.remote, r, a.i);
    WorkerMoves(env, s'.remote, r, r', a.i, Sent(cf), r.chunks[a.i]);
    CountsMove(r, r', a.i, Sent(cf));
    PersistSame(s, r, s', r');
  }

  /** Filling one empty slot never shortens the finished prefix, and keeps what was in it. */
  lemma ContiguousGrows(chunks: seq<ChunkFile>, i: nat, cf: ChunkFile)
    requires i < |chunks| && chunks[i].hash == "" && cf.hash != ""
    ensures Contiguous(chunks) <= Contiguous(chunks[i := cf])
    ensures Contiguous(chunks) <= i
  {
    var after := chunks[i := cf];
    var k := Contiguous(after);
    if k < |chunks| {
      assert after[k] == if k == i then cf else chunks[k];
    }
  }

  lemma StepRecord(env: Env, initial: Option<FileEntry>, s: State, i: nat)
    requires Inv(env, initial, s) && Enabled(env, s, Record(i))
    ensures Inv(env, initial, Apply(env, s, Record(i)))
  {
    var s' := Apply(env, s, Record(i));
    var r, r' := s.run.value, s'.run.value;
    var cf := r.workers[i].cf;
    SlotAt(env, s.remote, r, i);
    ContiguousGrows(r.chunks, i, cf);
    WorkerMoves(env, s.remote, r, r', i, Finishing, cf);
    CountsMove(r, r', i, Finishing);
    RecordPersists(env, initial, s, i);
    FinishedPrefixEntryOk(env, s.remote, r', Contiguous(r'.chunks));
  }

  lemma RecordPersists(env: Env, initial: Option<FileEntry>, s: State, i: nat)
    requires Inv(env, initial, s) && Enabled(env, s, Record(i))
    requires s.run.value.chunks[i].hash == "" && s.run.value.workers[i].cf.hash != ""
    ensures var s' := Apply(env, s, Record(i)); PersistInv(s', s'.run.value)
    ensures var s' := Apply(env, s, Record(i)); s'.disk.value.chunks <= s'.mem.value.chunks
  {
    var s' := Apply(env, s, Record(i));
    var r, r' := s.run.value, s'.run.value;
    ContiguousGrows(r.chunks, i, r.workers[i].cf);
    var d := |s.disk.value.chunks|;
    assert r'.chunks[..d] == r.chunks[..d];
    assert s'.mem.value.chunks[..d] == r'.chunks[..d];
  }

  lemma ResumeChunksHold(env: Env, initial: Option<FileEntry>, s: State)
    requires Inv(env, initial, s)
    ensures HoldsStart(env, s.remote, ResumeChunks(s.mem))
  {
    if s.mem.Some? && s.mem.value.incomplete {
      assert EntryOk(env, s.remote, s.mem.value, s.lastCut);
    } else {
      var none: seq<ChunkFile> := [];
      assert TotalSize(none) == 0 && env.file[..0] == [];
    }
  }

  /** A fresh run keeps what the resume check accepted and has only empty slots after it. */
  lemma FreshRun(env: Env, s: State, a: Action)
    requires a.Start? && env.Valid()
    requires HoldsStart(env, s.remote, ResumeChunks(s.mem))
    ensures var r := StartRun(env, s, a.chunkSetting, a.concurrencySetting, a.limitKBps).run.value;
            && WellShaped(env, r) && KeptInv(env, s.remote, r) && SlotsInv(env, s.remote, r)
            && r.chunks[..r.resumeFrom] == ResumeChunks(s.mem)[..r.resumeFrom]
  {
    var r := StartRun(env, s, a.chunkSetting, a.concurrencySetting, a.limitKBps).run.value;
    var resume := ResumeChunks(s.mem);
    ResumeIsSound(s.remote, resume, env.file, r.chunkSize);
    assert r.chunks[..r.resumeFrom] == resume[..r.resumeFrom];
    assert forall i :: r.resumeFrom <= i < |r.chunks| ==> r.chunks[i] == BLANK_CHUNK;
  }

  lemma FreshRunPersists(env: Env, s: State, a: Action)
    requires a.Start? && env.Valid()
    requires HoldsStart(env, s.remote, ResumeChunks(s.mem))
    ensures var s' := StartRun(env, s, a.chunkSetting, a.concurrencySetting, a.limitKBps);
            PersistInv(s', s'.run.value)
  {
    var s' := StartRun(env, s, a.chunkSetting, a.concurrencySetting, a.limitKBps);
    var r := s'.run.value;
    FreshRun(env, s, a);
    KeptAreFilled(env, s.remote, r.chunks, r.resumeFrom);
    StopsAtBlank(ResumeChunks(s.mem)[..r.resumeFrom], |r.chunks| - r.resumeFrom);
  }

  /** Blank slots after the kept chunks are not counted as finished. */
  lemma StopsAtBlank(kept: seq<ChunkFile>, n: nat)
    requires |kept| <= Contiguous(kept + Blanks(n))
    ensures Contiguous(kept + Blanks(n)) == |kept|
    ensures (kept + Blanks(n))[..|kept|] == kept
  {
    if 0 < n {
      assert (kept + Blanks(n))[|kept|] == BLANK_CHUNK;
    }
  }

  lemma FreshRunCounts(env: Env, s: State, a: Action)
    requires a.Start? && env.Valid()
    ensures CountsInv(StartRun(env, s, a.chunkSetting, a.concurrencySetting, a.limitKBps).run.value)
  {
    var r := StartRun(env, s, a.chunkSetting, a.concurrencySetting, a.limitKBps).run.value;
    CountNone(r.workers, HoldsSlot);
    CountNone(r.workers, InWaitGroup);
  }

  lemma StepStart(env: Env, initial: Option<FileEntry>, s: State, a: Action)
    requires a.Start? && Inv(env, initial, s) && Enabled(env, s, a)
    ensures Inv(env, initial, Apply(env, s, a))
  {
    var r := Apply(env, s, a).run.value;
    ResumeChunksHold(env, initial, s);
    FreshRun(env, s, a);
    FreshRunPersists(env, s, a);
    FreshRunCounts(env, s, a);
    FinishedPrefixEntryOk(env, s.remote, r, r.resumeFrom);
  }

  /** When every worker is gone and none failed, every slot is filled. */
  lemma AllSlotsFilled(env: Env, remote: Remote, r: Run)
    requires WellShaped(env, r) && KeptInv(env, remote, r) && SlotsInv(env, remote, r) && CountsInv(r)
    requires r.next == |r.workers| && r.wg == 0 && !r.failed
    ensures Contiguous(r.chunks) == |r.chunks|
    ensures Holds(remote, r.chunks, env.file)
  {
    var k := Contiguous(r.chunks);
    KeptAreFilled(env, remote, r.chunks, r.resumeFrom);
    CountNone(r.workers, InWaitGroup);
    if k < |r.chunks| {
      SlotAt(env, remote, r, k);
    }
    FinishedPrefix(env, remote, r, k);
    assert r.chunks[..k] == r.chunks;
    CutTiles(|env.file|, r.chunkSize, 0);
    NumChunksBounds(|env.file|, r.chunkSize, k);
    assert env.file[..|env.file|] == env.file;
  }

  lemma StepFinish(env: Env, initial: Option<FileEntry>, s: State, a: Action)
    requires a.Finish? && Inv(env, initial, s) && Enabled(env, s, a)
    ensures Inv(env, initial, Apply(env, s, a))
  {
    if !s.run.value.failed {
      AllSlotsFilled(env, s.remote, s.run.value);
    }
  }

  /** The saver copies memory, a crash restores the last save, and strangers may post. */
  lemma StepOutside(env: Env, initial: Option<FileEntry>, s: State, a: Action)
    requires (a.SaverTick? || a.Crash? || a.Post?) && Inv(env, initial, s) && Enabled(env, s, a)
    ensures Inv(env, initial, Apply(env, s, a))
  {
    var s' := Apply(env, s, a);
    if a.Post? {
      StoreInvMonotone(env, initial, s, s');
      if s.run.Some? {
        RunInvMonotone(env, s, s', s.run.value);
      }
    }
  }

  lemma StepKeepsInv(env: Env, initial: Option<FileEntry>, s: State, a: Action)
    requires Inv(env, initial, s) && Enabled(env, s, a)
    ensures Inv(env, initial, Apply(env, s, a))
  {
    match a
    case Start(_, _, _) => StepStart(env, initial, s, a);
    case Spawn => StepSpawn(env, initial, s);
    case Send(_, _, _) => StepSend(env, initial, s, a);
    case Record(i) => StepRecord(env, initial, s, i);
    case Finish(_) => StepFinish(env, initial, s, a);
    case SaverTick => StepOutside(env, initial, s, a);
    case Crash => StepOutside(env, initial, s, a);
    case Post(_, _) => StepOutside(env, initial, s, a);
    case _ => StepWorker(env, initial, s, a);
  }
}
