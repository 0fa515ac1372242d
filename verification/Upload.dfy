/**
 The resumable parallel upload of one local file to one remote path, as a transition system.

 Workers finish in any order; every finished chunk stores the longest finished prefix of the chunk
 list in memory; a background saver copies memory to disk; the process may die at any moment and the
 upload may be started again with another chunk size. Messages are append-only and anyone may add more.
 */
module Upload {
  import opened Content
  import opened Plan
  import opened RateLimit

  /** The local file and the chats its chunks are sent to. */
  datatype Env = Env(file: Bytes, chatIds: seq<int>)
  {
    predicate Valid() {
      0 < |file| && 0 < |chatIds|
    }
  }

  /**
   The life of one chunk worker: it takes a semaphore slot when spawned, looks at the shared error, reads and
   encrypts its chunk, waits for the bandwidth limiter, sends its message, records the chunk, gives the slot
   back and finally leaves the wait group.
   */
  datatype Worker =
    | NotSpawned
    | Spawned
    | Preparing
    | Pacing
    | Sending
    | Sent(cf: ChunkFile)
    | Finishing
    | Released
    | Done

  predicate HoldsSlot(w: Worker) {
    w.Spawned? || w.Preparing? || w.Pacing? || w.Sending? || w.Sent? || w.Finishing?
  }

  predicate InWaitGroup(w: Worker) {
    HoldsSlot(w) || w.Released?
  }

  /** The local variables of one `uploadLoop` call. */
  datatype Run = Run(
    chunkSize: int,
    concurrency: int,
    limitKBps: int,
    resumeFrom: nat,
    next: nat,
    chunks: seq<ChunkFile>,
    workers: seq<Worker>,
    failed: bool,
    sem: int,
    wg: int)

  /**
   `mem` and `disk` are the entry stored for the path in memory and in the storage file. `lastCut` is
   a history variable: the clamped chunk size of the latest start.
   */
  datatype State = State(
    remote: Remote,
    mem: Option<FileEntry>,
    disk: Option<FileEntry>,
    dirty: bool,
    run: Option<Run>,
    lastCut: int)

  datatype Action =
    | Start(chunkSetting: int, concurrencySetting: int, limitKBps: int)
    | Spawn
    | CheckError(i: nat)
    | Prepare(i: nat)
    | Pass(i: nat)
    | Fail(i: nat)
    | Send(i: nat, messageId: int, password: string)
    | Record(i: nat)
    | Release(i: nat)
    | Leave(i: nat)
    | Finish(now: int)
    | SaverTick
    | Crash
    | Post(ref: MessageRef, message: Message)

  // ---------------------------------------------------------------- steps

  /** Length of the longest prefix whose chunks all carry a digest. */
  function Contiguous(chunks: seq<ChunkFile>): (k: nat)
    ensures k <= |chunks|
    ensures forall i :: 0 <= i < k ==> chunks[i].hash != ""
    ensures k < |chunks| ==> chunks[k].hash == ""
  {
    ContiguousFrom(chunks, 0)
  }

  function ContiguousFrom(chunks: seq<ChunkFile>, from: nat): (k: nat)
    requires from <= |chunks|
    ensures from <= k <= |chunks|
    ensures forall i :: from <= i < k ==> chunks[i].hash != ""
    ensures k < |chunks| ==> chunks[k].hash == ""
    decreases |chunks| - from
  {
    if from < |chunks| && chunks[from].hash != "" then ContiguousFrom(chunks, from + 1) else from
  }

  function PartialEntry(chunks: seq<ChunkFile>): FileEntry {
    FileEntry(chunks, 0, "", false, true)
  }

  function CompleteEntry(chunks: seq<ChunkFile>, now: int): FileEntry {
    FileEntry(chunks, now, HashChunkHashes(chunks), false, false)
  }

  /** The chunks a new upload may try to continue. */
  function ResumeChunks(mem: Option<FileEntry>): seq<ChunkFile> {
    if mem.Some? && mem.value.incomplete then mem.value.chunks else []
  }

  function ChunkBytes(env: Env, chunkSize: int, i: int): Bytes
    requires env.Valid() && 0 < chunkSize && 0 <= i < NumChunks(|env.file|, chunkSize)
  {
    var p := Cut(|env.file|, chunkSize)[i];
    CutTiles(|env.file|, chunkSize, i);
    env.file[p.offset..p.offset + p.size]
  }

  /** The record a worker makes of the chunk it has sent. */
  function SentChunk(env: Env, chunkSize: int, i: int, messageId: int, password: string): ChunkFile
    requires env.Valid() && 0 < chunkSize && 0 <= i < NumChunks(|env.file|, chunkSize)
  {
    ChunkFile(env.chatIds[i % |env.chatIds|], messageId, ToInt32(Cut(|env.file|, chunkSize)[i].size), password,
              ChunkHash(ChunkBytes(env, chunkSize, i)))
  }

  /** The indices and sizes that make a run's steps well defined. */
  predicate WellShaped(env: Env, r: Run) {
    && env.Valid()
    && MIN_CHUNK_SIZE <= r.chunkSize <= MAX_CHUNK_SIZE
    && |r.chunks| == |r.workers| == NumChunks(|env.file|, r.chunkSize)
    && r.resumeFrom <= r.next <= |r.workers|
  }

  predicate WorkerIs(env: Env, s: State, i: nat, w: Worker -> bool) {
    s.run.Some? && WellShaped(env, s.run.value) && i < |s.run.value.workers| && w(s.run.value.workers[i])
  }

  /** The limiter ever lets chunk `i` through: it waits for the whole chunk at once. */
  predicate Fits(env: Env, r: Run, i: nat)
    requires WellShaped(env, r) && i < |r.workers|
  {
    LetsThrough(r.limitKBps, Cut(|env.file|, r.chunkSize)[i].size)
  }

  predicate Enabled(env: Env, s: State, a: Action) {
    match a
    case Start(_, _, _) => env.Valid() && s.run.None?
    case Spawn => s.run.Some? && WellShaped(env, s.run.value) && s.run.value.next < |s.run.value.workers|
                  && s.run.value.sem < s.run.value.concurrency
    case CheckError(i) => WorkerIs(env, s, i, (w: Worker) => w.Spawned?)
    case Prepare(i) => WorkerIs(env, s, i, (w: Worker) => w.Preparing?)
    case Pass(i) => WorkerIs(env, s, i, (w: Worker) => w.Pacing?) && Fits(env, s.run.value, i)
    case Fail(i) => WorkerIs(env, s, i, (w: Worker) => w.Preparing? || w.Sending?)
    case Send(i, messageId, password) =>
      && WorkerIs(env, s, i, (w: Worker) => w.Sending?)
      && password != ""
      && MessageRef(env.chatIds[i % |env.chatIds|], messageId) !in s.remote
    case Record(i) => WorkerIs(env, s, i, (w: Worker) => w.Sent?)
    case Release(i) => WorkerIs(env, s, i, (w: Worker) => w.Finishing?)
    case Leave(i) => WorkerIs(env, s, i, (w: Worker) => w.Released?)
    case Finish(_) => s.run.Some? && WellShaped(env, s.run.value) && s.run.value.next == |s.run.value.workers| && s.run.value.wg == 0
    case SaverTick => s.dirty
    case Crash => true
    case Post(ref, _) => ref !in s.remote
  }

  /** Slots that nobody has filled. */
  function Blanks(n: nat): (slots: seq<ChunkFile>)
    ensures |slots| == n && forall i :: 0 <= i < n ==> slots[i] == BLANK_CHUNK
  {
    seq(n, _ => BLANK_CHUNK)
  }

  /** Upload: fetch the old entry, decide where to resume, store the kept chunks as an incomplete entry. */
  function StartRun(env: Env, s: State, chunkSetting: int, concurrencySetting: int, limitKBps: int): State
    requires env.Valid()
  {
    var chunkSize := ClampChunkSize(chunkSetting);
    var n := NumChunks(|env.file|, chunkSize);
    var resume := ResumeChunks(s.mem);
    var k := ResumePoint(resume, |env.file|, chunkSize);
    var entry := Some(PartialEntry(resume[..k]));
    var run := Run(chunkSize, ClampConcurrency(concurrencySetting, MAX_CONCURRENT_UPLOAD_CHUNKS), limitKBps, k, k,
                   resume[..k] + Blanks(n - k), seq(n, _ => NotSpawned), false, 0, 0);
    s.(mem := entry, disk := entry, dirty := false, run := Some(run), lastCut := chunkSize)
  }

  function WithWorker(s: State, i: nat, w: Worker): State
    requires s.run.Some? && i < |s.run.value.workers|
  {
    s.(run := Some(s.run.value.(workers := s.run.value.workers[i := w])))
  }

  /** Put the chunk in its slot and store the finished prefix, to be saved later. */
  function RecordRun(s: State, i: nat, cf: ChunkFile): State
    requires s.run.Some? && i < |s.run.value.workers| && i < |s.run.value.chunks|
  {
    var r := s.run.value;
    var chunks := r.chunks[i := cf];
    s.(mem := Some(PartialEntry(chunks[..Contiguous(chunks)])), dirty := true,
       run := Some(r.(chunks := chunks, workers := r.workers[i := Finishing])))
  }

  /** After the wait: return the first error, or store the complete entry and save it. */
  function FinishRun(s: State, now: int): State
    requires s.run.Some?
  {
    if s.run.value.failed then s.(run := None)
    else
      var entry := Some(CompleteEntry(s.run.value.chunks, now));
      s.(mem := entry, disk := entry, dirty := false, run := None)
  }

  function Apply(env: Env, s: State, a: Action): State
    requires Enabled(env, s, a)
  {
    match a
    case Start(chunkSetting, concurrencySetting, limitKBps) => StartRun(env, s, chunkSetting, concurrencySetting, limitKBps)
    case Spawn =>
      var r := s.run.value;
      s.(run := Some(r.(workers := r.workers[r.next := Spawned], next := r.next + 1, sem := r.sem + 1, wg := r.wg + 1)))
    case CheckError(i) => WithWorker(s, i, if s.run.value.failed then Finishing else Preparing)
    case Prepare(i) => WithWorker(s, i, Pacing)
    case Pass(i) => WithWorker(s, i, Sending)
    case Fail(i) =>
      var s' := WithWorker(s, i, Finishing);
      s'.(run := Some(s'.run.value.(failed := true)))
    case Send(i, messageId, password) =>
      var c := s.run.value.chunkSize;
      var cf := SentChunk(env, c, i, messageId, password);
      WithWorker(s, i, Sent(cf)).(remote := s.remote[cf.Ref() := Sealed(password, ChunkBytes(env, c, i))])
    case Record(i) => RecordRun(s, i, s.run.value.workers[i].cf)
    case Release(i) =>
      var s' := WithWorker(s, i, Released);
      s'.(run := Some(s'.run.value.(sem := s.run.value.sem - 1)))
    case Leave(i) =>
      var s' := WithWorker(s, i, Done);
      s'.(run := Some(s'.run.value.(wg := s.run.value.wg - 1)))
    case Finish(now) => FinishRun(s, now)
    case SaverTick => s.(disk := s.mem, dirty := false)
    case Crash => s.(mem := s.disk, dirty := false, run := None)
    case Post(ref, message) => s.(remote := s.remote[ref := message])
  }

  // ---------------------------------------------------------------- counting workers

  function Count(ws: seq<Worker>, p: Worker -> bool): nat {
    if ws == [] then 0 else Count(ws[..|ws| - 1], p) + if p(ws[|ws| - 1]) then 1 else 0
  }

  lemma {:induction false} CountUpdate(ws: seq<Worker>, p: Worker -> bool, i: nat, w: Worker)
    requires i < |ws|
    ensures Count(ws[i := w], p) == Count(ws, p) - (if p(ws[i]) then 1 else 0) + (if p(w) then 1 else 0)
  {
    var n := |ws| - 1;
    if i < n {
      assert ws[i := w][..n] == ws[..n][i := w];
      CountUpdate(ws[..n], p, i, w);
    } else {
      assert ws[i := w][..n] == ws[..n];
    }
  }

  lemma {:induction false} CountNone(ws: seq<Worker>, p: Worker -> bool)
    ensures Count(ws, p) == 0 <==> forall i :: 0 <= i < |ws| ==> !p(ws[i])
  {
    if ws != [] {
      var n := |ws| - 1;
      CountNone(ws[..n], p);
      assert forall i :: 0 <= i < n ==> ws[..n][i] == ws[i];
    }
  }
}
