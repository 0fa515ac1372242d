# Verification of the stashcli storage layer

stashcli keeps files in Telegram chats: a file is cut into chunks, each chunk is encrypted and sent as
one message, and a local database maps remote paths to chunk lists. This project models the Go package
`stashgram` and proves what its users rely on: an interrupted upload can be continued without ever
storing a wrong byte, a file appears all at once, every way of reading gives the bytes that were stored,
the flat map of paths behaves as a directory tree, and the cache, the bandwidth limiter and the
keep-alive probers keep their bounds.

Run `dafny verify dfyconfig.toml` in this directory.

## What is here

| module (file) | what it models |
|---|---|
| `Content` | chunks, entries, messages, sealing and digests, fetching one chunk, offsets over variable-size chunks |
| `Plan` | chunk layout, clamping, the resume check |
| `Upload`, `UploadSafety`, `UploadTheorems` | the resumable parallel upload as a transition system: spawn, check, prepare, wait for the limiter, send, record, fail, release, leave, finish, saver tick, crash, restart, messages of strangers |
| `UploadProgress` | when a started upload ends, and when it waits for the limiter for ever |
| `UploadReads` | what the steps of an upload, a restart and a crash mean for reads and for the cache |
| `UploadLoops` (`UploadLoop.dfy`) | the same loop with the shared chunk array, the first error and the storage maps updated in place; each critical section is one step of the transition system |
| `Download`, `DownloadRun` | parallel writes at offsets; semaphore, limiter, error channel and interleaving of the download workers; when a download ends |
| `Paths`, `Tree`, `TreeRuns` | path strings, the tree in a flat map, whole runs of operations with saves and reloads |
| `Rename`, `StorageDb` (`Storage.dfy`), `Walk` | renames in arbitrary order, the storage database, listing and counting |
| `Cache`, `CacheKeys`, `CachedReads` | eviction and expiry, cache keys, when a cached blob belongs to what is stored |
| `ServedReads` | what reads take from the cache, whatever is in it, and exactly when that is right |
| `RenamedReads` | what a rename leaves in the cache: one that fails, and one onto a stored file |
| `ReadRuns`, `OrderlyRuns` | reads, deletes, renames, uploads and crashes that run at the same time, each in several steps: exactly which steps mislead reads, new ones or those under way, runs that do, and a discipline under which none does |
| `FileSystems` (`FileSystem.dfy`), `Stream` | range reads, deletes and renames through the cache; the sequential reader |
| `RateLimit` (`RateLimiter.dfy`) | the token bucket |
| `KeepAlive` | the connection, its generation counter and its probers |

State that the code changes in place is a class with methods, each proved against a function or a
predicate on the old and new state: `UploadLoop`, `Storage`, `FileCache`, `FileSystem`,
`StreamReadSeeker`, `RateLimiter`, `Connection`. Protocols whose steps interleave are transition systems
over values, and their theorems quantify over every history.

## Assumptions

- The local file does not change between attempts to upload it; the code compares sizes only.
- One process. While a path is uploaded nobody else uploads, deletes, renames or makes a folder at it, or renames
  or deletes a folder above it. Other paths may be changed at the same time.
- A write to disk happens completely, or the process dies before it.
- A message, once sent, keeps its content; others may add messages at any time. In the read theorems a
  message may be unreachable at any moment (`online`).
- Encryption is a pair that undo each other, with the password as key; digests are injective and not empty, and
  every stored chunk record carries one, as those that uploads write do.
- Paths are clean: no empty name, no leading or trailing slash. There is one session, with at least one chat.
- Within one cache operation the clock is read once. Sizes and times are unbounded integers except for
  the conversion of a chunk size to 32 bits, which is explicit. The limiter computes with real numbers.
- Waiting for the limiter is part of the transition systems as a phase that a worker leaves only if the limiter
  ever lets its chunk through (`RateLimit.ChunkIsSentIff` and `RateLimit.WaitForChunk` tie that to the token bucket
  and to having a limiter at all). In the methods a call
  that never returns for this reason has the result `WaitsForEver`.

## Where the code does less than its documentation says

Each of these is a theorem with an exact condition, or a concrete run.

- Renaming a path to itself deletes it with everything below it (`Rename.RenameToItselfDeletes`), and a
  rename whose source and target overlap can lose entries depending on map iteration order
  (`Rename.OrderIrrelevantIff`): every order agrees exactly when no moved path is a new name of a moved path.
- `Mkdir` on a stored file drops its entry (`StorageDb.MkdirKeepsEntriesIff`); writing below a file, or a
  file over a folder that is not empty, breaks the tree (`Tree.StoreKeepsTree`, `TreeRuns.TreesThroughoutIff`).
- `Upload` does not clear the cache. After storing a file over another, reads are right, whatever reads had cached,
  exactly when the chunks of both have the same contents as far as both go (`ServedReads.OverwriteReadsRightIff`);
  they stay right however the new version grows exactly when it begins with all chunks of the old one
  (`ServedReads.StaysRightIff`). An input: `ServedReads.OverwriteServesOldByte`.
- A file stored under `<path>.chunk.<n>` shares a cache key with chunk `n` of `<path>`. Reads are right, whatever
  reads have cached, exactly when each such name is a folder, or empty, or too large to be cached whole, or the
  same bytes (`ServedReads.SharedKeysMisleadIff`). An input: `ServedReads.SharedKeyServesOtherFile`.
- A rename that fails has carried a cached blob over before it notices. Reads of what is stored are right just after
  it exactly when the blob was cleared again or is right for what it may be consulted for
  (`RenamedReads.FailedRenameReadsRightIff`). It never misleads a later read, whatever file comes to be stored at the new
  name, exactly when it was cleared again, or is the start of a file stored there (or that is too large, or as large as it
  can be, for it to matter) and is right where the new name is the key of a stored chunk (`RenamedReads.FailedRenameStaysRightIff`). At a new
  name that is not stored only clearing helps (`RenamedReads.FailedRenameToFreeNameIff`); before the call it is
  enough that nothing live is cached under the old name (`RenamedReads.FailedRenameUncached`). Inputs:
  `RenamedReads.FailedRenameServesOtherFile`, `RenamedReads.FailedRenameServesNextUpload`.
- A rename onto a stored file clears nothing of what is cached for that file. Unless the new name is the old one
  followed by `.chunk`, reads are right afterwards, whatever reads had cached, exactly when the chunks of both files
  have the same contents as far as both go (`RenamedReads.RenameOntoOtherIff`, in general
  `RenamedReads.RenameOntoReadsRightIff`). An input: `RenamedReads.RenameOntoServesOldByte`.
- Nothing locks the cache and the storage together. A read that falls between the halves of a delete, or is in
  flight across a delete or a rename, leaves a chunk cached for a path that is gone, and the next upload to that
  path reads as the old file (`ReadRuns.ReadWithinDeleteMisleads`, `ReadRuns.ReadAcrossDeleteMisleads`,
  `ReadRuns.ReadAcrossRenameMisleads`). A read that is under way while its file is replaced can return a chunk of the
  old file followed by one of the new, the bytes of no file that was ever stored, although everything cached is right
  for what is stored (`ReadRuns.ReadMixesTwoFiles`, with bytes `ReadRuns.ReadMixesOneAndFour`). In any interleaving all
  reads, new ones and those under way, are right throughout exactly when each step met its condition
  (`ReadRuns.RightThroughoutIff`); then each read returns what was stored at one moment of the run
  (`ReadRuns.ReadsAreSnapshots`). A simple discipline is enough (`OrderlyRuns.OrderlyReadsAreRight`).
- The cache survives a crash, the storage goes back to what was saved. In an orderly run no read is misled by that at
  once (`OrderlyRuns.CrashKeepsReads`), and later ones are safe under the discipline exactly when nothing that is cached
  was lost and no blob had been carried to a new name (`OrderlyRuns.CrashKeepsInvIff`).
- The comment at `filesystem.go:1150-1153` says cached data is dropped on a rename; the code carries the whole-file
  blob over, and the model follows the code.
- The comment at `cache.go:174-178` says often-read chunks survive; eviction goes by creation time and
  reading does not change it (`Cache.FileCache.Get` leaves live entries as they are).
- A blob larger than the whole budget is still stored, alone (`Cache.EvictionMakesRoom`).
- A chunk larger than one second's worth of the bandwidth limit is never sent and never downloaded, and everything
  that waits for it hangs, outside every timeout. A started upload can always be finished exactly when no scheduled
  chunk is that large (`UploadProgress.AlwaysFinishableIff`), a download exactly when no uncached chunk is
  (`DownloadRun.AlwaysFinishableIff`), and a read of an uncached chunk that is never returns. Without a limit, as by
  default, nothing waits (`UploadProgress.WithoutLimitUploads`, `DownloadRun.WithoutLimitDownloads`). The default chunk size
  under a limit of 10 MiB per second hangs on every file larger than that (`UploadProgress.DefaultsHang`).
- A prober that was superseded while its probe hung tears down the connection that replaced its own
  (`KeepAlive.TeardownHitsAStrangerIff`, `KeepAlive.ANewConnectionIsTornDown`).
- Changing the chunk size discards an unfinished upload (`Plan.ResumeAcrossChunkSizes`).

## Model

| member | source | states |
|---|---|---|
| UploadTheorems.StoredEntriesDecode | stashgram/filesystem.go:577-760 | in every history of workers, saver, crashes and restarts with any chunk size, whatever is stored for the path, in memory or on disk, is the old complete entry, a partial entry that decodes to exactly that many first bytes of the file, or a complete entry that decodes to the file |
| UploadTheorems.HistoryKeepsInv | stashgram/filesystem.go:577-760 | the upload invariant holds in every state of every history |
| UploadTheorems.HiddenWhileUploading | stashgram/filesystem.go:620-748 | while an upload runs the path's entry is incomplete in memory and on disk |
| UploadLoops.UploadIsNotListed | stashgram/filesystem.go:620-759 | during an upload every listing and count, of memory or of the storage file, is what it would be without the path |
| UploadTheorems.AppearsOnlyWhenComplete | stashgram/filesystem.go:748-759 | the only step that makes a hidden path visible is the end of a run without error; all slots are filled, the entry has them, the date and their file hash, decodes to the whole file and is on disk |
| UploadTheorems.PublishesIffNoFailure | stashgram/filesystem.go:748-759 | a finished run makes the whole file visible exactly when no worker failed |
| UploadTheorems.PrefixNeverShrinks | stashgram/filesystem.go:725-740 | memory holds the longest finished prefix, disk an earlier one, both only grow within a run, and the kept chunks are never written |
| UploadTheorems.RestartKeepsEverything | stashgram/filesystem.go:595-622 | restarting with the chunk size of the latest start keeps every stored chunk and schedules exactly the others |
| UploadTheorems.CrashLosesOnlyUnsaved | stashgram/storage.go:169-185 | a crash loses only chunks recorded after the last save, and the rest can be continued |
| UploadTheorems.SaverSavesEverything | stashgram/storage.go:169-185 | in every history what memory has and disk has not is due for a save, and a save leaves nothing that a crash could lose |
| UploadTheorems.WorkersBounded | stashgram/filesystem.go:624-635 | in every history the workers holding a slot are exactly counted and never exceed the clamped concurrency |
| UploadProgress.AlwaysFinishableIff | stashgram/filesystem.go:633-760 | a started upload can be finished from every state it can get into exactly when there is no limit, or the largest chunk that is left to send is at most the limit times 1024 bytes |
| UploadProgress.PublishableIff | stashgram/filesystem.go:689-759 | a started upload can publish its file under exactly the same condition |
| UploadProgress.WithoutLimitUploads | stashgram/filesystem.go:689-694 | without a limit every started upload can always be finished and can publish its file |
| UploadProgress.ParallelAsAsked | stashgram/filesystem.go:624-746 | a run can have as many workers under way as the setting asks for, four by default and 32 at most, or as many as there are chunks left |
| UploadProgress.NothingBeginsAfterError | stashgram/filesystem.go:637-642 | once a worker has failed, a worker that has not begun prepares, sends and records nothing |
| UploadProgress.FailureHides | stashgram/filesystem.go:644-752 | a worker that prepares or sends may fail at any moment, and then, whatever else happens, the path is hidden in memory and on disk until the next start |
| UploadProgress.StuckIff | stashgram/filesystem.go:742-748 | no step of a run is possible exactly when every worker that is left waits for the limiter for ever and no other can be spawned: the spawn loop and the wait hang for no other reason |
| UploadProgress.StepsBounded | stashgram/filesystem.go:633-760 | a run that is left alone takes at most eight steps per scheduled chunk and one more, whatever saver and others do |
| UploadProgress.BlockedForEver | stashgram/filesystem.go:694 | a worker whose chunk the limiter never lets through is still there at the end of any continuation |
| UploadProgress.DefaultsHang | stashgram/filesystem.go:689-694 | the default chunk size under a limit of 10 MiB per second: a run of four steps after which the upload of any larger file can never finish |
| UploadReads.StoredIsReadable | stashgram/filesystem.go:577-760 | in every history what an upload has stored, in memory or on disk, decodes chunk by chunk with the recorded sizes |
| UploadReads.StepsOfARunContinue | stashgram/filesystem.go:725-759 | recording a chunk and publishing store a readable entry that begins with all chunks of the stored one, as the discipline for reads asks |
| UploadReads.StartAgrees | stashgram/filesystem.go:595-620 | starting stores a readable entry that agrees with the stored one as far as it goes, and begins with all of it exactly when the resume check keeps every chunk |
| UploadReads.CrashAndTheCache | stashgram/storage.go:169-185 | a crash, which shortens the stored list under a cache that survives, keeps all reads right, and keeps the cache right for later exactly when nothing is cached of the lost chunks |
| UploadReads.SentAgainIsSame | stashgram/filesystem.go:653-723 | a chunk sent again with the same chunk size has the contents of the lost one |
| UploadSafety.StepKeepsInv | stashgram/filesystem.go:577-760 | each step keeps the invariant on stored entries, slots, counters and persisted prefixes |
| UploadSafety.FinishedPrefix | stashgram/filesystem.go:727-738 | the finished prefix of the slots holds exactly the bytes up to its chunk boundary |
| UploadSafety.AllSlotsFilled | stashgram/filesystem.go:748-759 | when all workers have left and none failed, every slot is filled and the slots hold the file |
| UploadSafety.SentChunkOk | stashgram/filesystem.go:653-723 | what a worker sends and records is its planned chunk, sent to the next chat in turn, with its size unchanged by the conversion to 32 bits |
| UploadSafety.RoundRobin | stashgram/filesystem.go:687 | chunks go round the chats: two go to the same chat exactly when they are whole rounds apart |
| Upload.Contiguous | stashgram/filesystem.go:734-737 | the length of the longest prefix of slots that carry a digest |
| UploadLoops.UploadLoop.constructor | stashgram/filesystem.go:595-622 | planning, the resume check, the copied slots and the initial save are the start step, and every other stored path is as before but for missing folders |
| UploadLoops.UploadLoop.ContiguousPrefix | stashgram/filesystem.go:734-737 | the counting loop over the shared array finds the longest finished prefix |
| UploadLoops.UploadLoop.Record | stashgram/filesystem.go:725-739 | the critical section fills one slot, stores exactly the longest finished prefix for a later save, and is the record step |
| UploadLoops.UploadLoop.Fail | stashgram/filesystem.go:644-650 | only the first error is kept |
| UploadLoops.UploadLoop.Publish | stashgram/filesystem.go:748-759 | with an error storage is untouched; without one the complete entry is stored and saved |
| Plan.PlanChunks | stashgram/filesystem.go:558-575 | the layout loop yields the closed-form cut, and nothing for an empty file |
| Plan.CutTiles | stashgram/filesystem.go:558-575 | planned chunk k has index k, starts where the previous one ends, has the full size unless it is the last, and the last ends at the end of the file |
| Plan.PlannedSizes | stashgram/filesystem.go:558-575 | planned chunk k starts at k chunk sizes and has what is left of the file, up to the chunk size |
| Plan.NumChunksBounds | stashgram/filesystem.go:558-575 | a boundary lies before the end of the file exactly for indices below the number of chunks |
| Plan.PlannedSizeFitsInt32 | stashgram/filesystem.go:410-421 | with a clamped chunk size every planned size survives the conversion to 32 bits |
| Plan.ClampsToNearest | stashgram/filesystem.go:410-421 | a chunk size that is set becomes the nearest one between 1 MiB and 2000 MiB, one that is not becomes 450 MiB |
| Plan.ClampsConcurrency | stashgram/filesystem.go:427-435 | a concurrency that is set becomes the nearest allowed one, one that is not becomes four |
| Plan.ToInt32Wraps | stashgram/filesystem.go:720 | the conversion gives the one signed 32-bit number that differs by multiples of two to the 32 |
| Plan.CheckResume | stashgram/filesystem.go:600-613 | the summing loop and comparison compute the resume point |
| Plan.ResumeIsSound | stashgram/filesystem.go:595-613 | kept chunks hold the file exactly up to where the first scheduled chunk begins, however they were cut |
| Plan.ResumeAcrossChunkSizes | stashgram/filesystem.go:595-613 | an unfinished prefix survives a change of chunk size exactly when the size did not change |
| Content.FetchedBytesMatchHash | stashgram/filesystem.go:1239-1244 | a chunk that fetches with a recorded digest is the chunk that was hashed |
| Content.FetchesIff | stashgram/filesystem.go:1194-1247 | a chunk fetches as some bytes exactly when its message is there, is sealed with its password or plain without one, and the bytes have the recorded digest |
| Content.FileHashTellsChunks | stashgram/filesystem.go:437-443 | the file hash tells lists of chunk digests of one length apart |
| Content.HoldsIffDecodes | stashgram/filesystem.go:1194-1247 | offsets over recorded sizes agree with concatenating what is fetched, exactly when every recorded size is right |
| Download.UploadThenDownload | stashgram/filesystem.go:816-857 | whatever history of failures, crashes and restarts made an uploaded entry visible, fetching its chunks in any order gives back the file |
| Download.AssembledIsWhole | stashgram/filesystem.go:823-852 | writes at the prefix-sum offsets in any order leave the stored file |
| Download.WritesDoNotOverlap | stashgram/filesystem.go:816-821 | the written stretches of different chunks are disjoint and in order |
| Download.ChunkOffsets | stashgram/filesystem.go:816-821 | the offset array holds the prefix sums |
| Download.FetchAll | stashgram/filesystem.go:827-852 | the workers' turns one after the other in any order: with no error and no worker waiting for ever the local file is the assembly of all chunks; an error means that a message was unreachable, waiting for ever that there is a limit and a chunk is never let through; a chunk that is neither cached at the start nor let through always makes it wait for ever; with all chunks cached nothing can fail |
| Download.DownloadFile | stashgram/filesystem.go:766-867 | run alone: the refusals in their order; success means the whole stored file, failure an unreachable message, waiting for ever a chunk that the limiter never lets through; such a chunk that is not cached excludes every other end; without a limit it never waits for ever, and with all chunks cached it succeeds without a message and under any limit; the cache stays right |
| DownloadRun.SuccessMeansWhole | stashgram/filesystem.go:823-857 | in every interleaving, once all workers ended the error channel is empty exactly when every chunk was fetched and written, and then the local file is the stored one |
| DownloadRun.ReportNeverBlocks | stashgram/filesystem.go:824-846 | the error channel always has room for a worker that reports |
| DownloadRun.AlwaysFinishableIff | stashgram/filesystem.go:823-890 | a download can be finished from every state it can get into exactly when there is no limit, or every chunk that is not found in the cache is at most the limit times 1024 bytes |
| DownloadRun.SucceedableIff | stashgram/filesystem.go:823-890 | a download can succeed under exactly the same condition |
| DownloadRun.WithoutLimitDownloads | stashgram/filesystem.go:1194-1197 | without a limit every download can always be finished and can succeed |
| DownloadRun.StuckIff | stashgram/filesystem.go:833-852 | no worker can step exactly when all have ended or all that have a slot wait for the limiter for ever |
| DownloadRun.StepsBounded | stashgram/filesystem.go:833-852 | a download takes at most six steps per chunk |
| DownloadRun.HangingDownload | stashgram/filesystem.go:1194-1197 | a chunk that is neither cached nor let through hangs its worker after two steps |
| DownloadRun.SlotsBounded | stashgram/filesystem.go:825-837 | slots in use never exceed the concurrency and all are given back |
| FileSystems.FileSystem.FetchChunk | stashgram/filesystem.go:870-890 | for any content of the cache: a live blob that is not empty is the result and nothing changes; otherwise the chunk from the network, which is then cached with its bytes and a new lifetime, or no return exactly under a limit that the chunk exceeds; for a right cache the result is the chunk and the cache stays right |
| FileSystems.FileSystem.FetchThenOffline | stashgram/filesystem.go:870-890 | a chunk that has been fetched is fetched again, the same, up to the end of its blob's lifetime without a single message and whatever the limit |
| FileSystems.FileSystem.ReadOverlap | stashgram/filesystem.go:979-1002 | a chunk is fetched exactly when it overlaps the range, and gives exactly the next bytes of the range |
| FileSystems.FileSystem.ReadRangeSequential | stashgram/filesystem.go:974-1011 | the result is the slice of the file, only overlapping chunks are fetched and cached, failure names a chunk of the range that is unreachable or never let through, an uncached chunk of the range that is never let through excludes success, and with all of them cached nothing can fail |
| FileSystems.FileSystem.ReadSmallFile | stashgram/filesystem.go:943-962 | a small file is served from its live blob if that is long enough; otherwise, if at least half is wanted, it is read and cached whole, and only an unreachable message or no return prevents that; less is left to the range |
| FileSystems.FileSystem.ReadWhole | stashgram/filesystem.go:955-960 | a file that is read whole is the stored file and is cached whole with a new lifetime |
| FileSystems.FileSystem.ReadWholeThenOffline | stashgram/filesystem.go:946-960 | any part of a small file that has been read whole is read again up to the end of the blob's lifetime without a single message |
| FileSystems.FileSystem.DownloadRange | stashgram/filesystem.go:912-972 | all error cases, and otherwise exactly the slice up to the end of the file, cached or not; a live blob of a file of up to 24 MiB or the live chunks of the range serve it without a message; a larger file is never cached whole; waiting for ever only under a limit and because of a chunk that is never let through, and no success when such a chunk of the range is not cached |
| FileSystems.FileSystem.ReadAt | stashgram/filesystem.go:1017-1036 | the buffer receives the slice, the rest of it is untouched, a short read is the end of the file, and without a limit it never waits for ever |
| FileSystems.PieceArithmetic | stashgram/filesystem.go:980-1002 | bytes read are the chunk offset relative to the range, clamped to it, at every chunk |
| FileSystems.ClipInWords | stashgram/filesystem.go:930-935 | a clipped range has as many bytes as there are, up to the length, each from its own place |
| FileSystems.FileSystem.DeletePath | stashgram/filesystem.go:1139-1148 | run alone: path and subtree are gone from storage, exactly the keys of the path, of its chunks and of what is below it are gone from the cache, and nothing of them stays readable |
| FileSystems.FileSystem.RenamePath | stashgram/filesystem.go:1154-1166 | run alone: a rename to an unrelated name re-keys the subtree, one to a free name keeps every read right, a failed one changes no path; nothing of the old name stays cached, a live blob of it is cached under the new one, and otherwise nothing comes in |
| FileSystems.FileSystem.StoreEntry | stashgram/filesystem.go:620-759 | storing a readable entry at a new path, or one that begins with all chunks of the stored one, keeps every read right |
| FileSystems.FileSystem.ExpireCached | stashgram/cache.go:258-271 | the hourly clean-up drops exactly what has expired and keeps every read right |
| FileSystems.FileSystem.CachedWhole | stashgram/filesystem.go:946-948 | the whole-file blob exactly if it is cached and has not expired, for any content of the cache |
| ServedReads.OverwriteReadsRightIff | stashgram/filesystem.go:750-759 | after storing a file over another all reads are right, for every cache that reads built before, exactly when the chunks of both agree as far as both go |
| ServedReads.StaysRightIff | stashgram/filesystem.go:620-759 | they are right and stay right however the new version is continued exactly when it begins with all chunks of the old one |
| ServedReads.OverwriteServesOldByte | stashgram/filesystem.go:750-759 | an input on which an overwritten file still reads as the old one |
| ServedReads.SharedKeysMisleadIff | stashgram/filesystem.go:870-962 | all reads are right, for every cache that reads build, exactly when each stored path that is a stored chunk's key is a folder, or empty, or above the blob limit, or the same bytes |
| ServedReads.SharedKeyServesOtherFile | stashgram/filesystem.go:870-878 | an input on which one file reads as another |
| RenamedReads.FailedRenameReadsRightIff | stashgram/filesystem.go:1159-1165 | just after a failed rename of a cached name reads of what is stored are right exactly when the carried blob was cleared again or is right for whatever the new name may be consulted for |
| RenamedReads.FailedRenameStaysRightIff | stashgram/filesystem.go:1159-1165 | the carried blob misleads no read then or later, for every readable file that comes to be stored at the new name (any file, or a continuation of what is stored there) and every eviction, exactly when it was cleared again, or is the start of what is stored there, or that is too large to be served from a blob or cannot grow without being so, and is the right chunk where the name is a stored chunk's key |
| RenamedReads.FailedRenameToFreeNameIff | stashgram/filesystem.go:1159-1165 | at a new name that is neither stored nor a stored chunk's key a blob that is not empty is harmless exactly when it was cleared again |
| RenamedReads.FailedRenameUncached | stashgram/filesystem.go:1159-1165 | a failed rename of a name with nothing live cached keeps all reads right |
| RenamedReads.OnlyChunkKeysAreCarried | stashgram/filesystem.go:1159-1161 | in a cache that reads have built only keys of stored chunks can be carried by a failed rename |
| RenamedReads.FailedRenameServesOtherFile | stashgram/filesystem.go:1159-1165 | an input on which a failed rename makes one file read as another |
| RenamedReads.FailedRenameServesNextUpload | stashgram/filesystem.go:1159-1165 | an input on which all reads are right after a failed rename and the next upload to the new name reads as the carried blob |
| RenamedReads.RenameOntoReadsRightIff | stashgram/filesystem.go:1154-1166 | after renaming a file onto a stored file, for every cache that reads built and a live blob or none, all reads are right exactly when whatever may be left of the overwritten file is right for the moved one |
| RenamedReads.RenameOntoOtherIff | stashgram/filesystem.go:1154-1166 | unless the new name begins with the old one and ".chunk", that is exactly when the chunks of both files agree as far as both go |
| RenamedReads.RenameOntoServesOldByte | stashgram/filesystem.go:1154-1166 | an input on which a file that was renamed onto another reads as the overwritten one |
| ServedReads.RangesServeRightIff | stashgram/filesystem.go:943-951 | every slice taken from a whole-file blob is right exactly when one of blob and file is the start of the other, or the file is above the limit |
| ServedReads.ReadsRightByKey | stashgram/filesystem.go:870-951 | all reads are right exactly when each cached blob is right for whatever it may be consulted for |
| ServedReads.KeyServedByDigest | stashgram/filesystem.go:870-951 | a blob is right for whatever it may be consulted for exactly when each record stored under its key has its digest and the small file stored there is its start or it the start of that |
| ServedReads.SoundServes | stashgram/filesystem.go:870-951 | a cache in which every blob belongs to a stored path serves all reads right |
| ServedReads.ShrinkKeepsSoundIff | stashgram/storage.go:78-106 | when a stored chunk list goes back to a start of itself the cache stays right exactly when nothing is cached of the dropped chunks |
| ReadRuns.RightThroughoutIff | stashgram/filesystem.go:870-1166 | in any interleaving of reads, evictions, deletes, renames, uploads, crashes and new messages, each in its own steps, everything that a new read would take from the cache and everything that each read under way has is right at every moment exactly when every step met its condition |
| ReadRuns.StepKeepsRightIff | stashgram/filesystem.go:870-1166 | each step keeps all reads right, new ones and those under way, exactly when its own condition holds: digests of records for chunks taken or cached, agreement of bytes for whole files |
| ReadRuns.WhatReadsReturn | stashgram/filesystem.go:974-1011 | if every step met its condition each read has, at every moment, exactly the stretch of its looked-up file up to where it is, all of it at the end, and a whole-file blob that agrees with it |
| ReadRuns.ReadsAreSnapshots | stashgram/filesystem.go:912-1011 | then what a read returns is the file that was stored at its path at one moment of the run, whatever changed meanwhile |
| ReadRuns.ReadMixesTwoFiles | stashgram/filesystem.go:984-993 | from any state with a file of two chunks: ten steps, all but the last within their conditions, after which a read has a chunk of the old file and then one of the new, while everything cached is right for what is stored |
| ReadRuns.ReadMixesOneAndFour | stashgram/filesystem.go:984-993 | such a run with bytes: 1 and 2 replaced by 3 and 4, and the read gives 1 and 4 |
| ReadRuns.ReadAcrossDeleteMisleads | stashgram/filesystem.go:1144-1147 | from any state, a read in flight across a delete makes the next file at the path read as the old one |
| ReadRuns.ReadWithinDeleteMisleads | stashgram/filesystem.go:1144-1147 | so does a read between the two halves of a delete |
| ReadRuns.ReadAcrossRenameMisleads | stashgram/filesystem.go:1159-1165 | so does a read in flight across a rename, for the old name |
| ReadRuns.BuiltKeysAreReachable | stashgram/filesystem.go:870-962 | each blob that reads are said to build is cached at the end of some run of reads from an empty cache |
| OrderlyRuns.OrderlyReadsAreRight | stashgram/filesystem.go:870-1166 | in every interleaving with one delete or rename at a time, no read of what it changes meanwhile and no crash that loses what is cached, all reads are right at every moment and each read under way is right for an entry that is the start of what is stored |
| OrderlyRuns.CrashKeepsReads | stashgram/storage.go:78-106 | a crash at any moment of an orderly run, also between the halves of a delete or a rename, with any number of paths set back under the surviving cache, misleads no new read |
| OrderlyRuns.CrashKeepsInvIff | stashgram/storage.go:78-106 | after such a crash the discipline can start again exactly when nothing cached is of what was lost, on any path, and no blob was carried to a new name |
| OrderlyRuns.ColdStart | stashgram/cache.go:32-48 | with an empty cache and nobody reading the discipline can start from any readable files whose names are no stored chunk's key |
| OrderlyRuns.StepKeepsInv | stashgram/filesystem.go:870-1166 | each orderly step keeps cached blobs belonging to stored paths, or to the old name of a rename under way |
| OrderlyRuns.SoundAfterMove | stashgram/filesystem.go:1159-1165 | after both halves of a rename everything cached, with the carried blob, belongs to the renamed files |
| CachedReads.PutKeepsSoundIff | stashgram/filesystem.go:880-887 | caching a fetched blob keeps the cache right exactly when the blob is right for what is stored by then |
| CachedReads.RemoveKeepsSoundIff | stashgram/storage.go:310-318 | storage's half of a delete keeps the cache right exactly when nothing is cached of the removed subtree |
| CachedReads.ClearedNothing | stashgram/filesystem.go:1144-1146 | the cache's half of a delete leaves nothing cached of the subtree |
| CachedReads.SoundAfterDelete | stashgram/filesystem.go:1139-1148 | clearing a path, its chunks and everything below it leaves only blobs of what is still stored |
| CachedReads.SoundAfterRename | stashgram/filesystem.go:1154-1166 | what stays cached, and the blob carried over, is right for the renamed files |
| CachedReads.ChunkHit | stashgram/filesystem.go:870-878 | a chunk found in the cache is that chunk |
| CachedReads.PlainNamesShareNoKeys | stashgram/filesystem.go:827-828 | while no stored name has ".chunk." in it no stored path is the key of a stored chunk |
| CacheKeys.ChunkKeyInjective | stashgram/filesystem.go:993 | different chunks never share a cache key |
| CacheKeys.DecimalStandsFor | stashgram/filesystem.go:828 | the number in a chunk's key is its index in decimal, without leading zeros |
| Cache.FileCache.Set | stashgram/cache.go:103-125 | room is made, the data is there with its size and lifetime, and the total is within the budget unless the data alone exceeds it |
| Cache.FileCache.SetThenGet | stashgram/cache.go:79-126 | what is stored is found again, unchanged, exactly up to the end of its lifetime |
| Cache.FileCache.EvictIfNeeded | stashgram/cache.go:179-219 | expired entries go, then the oldest, and only as many as needed |
| Cache.FileCache.DropOldest | stashgram/cache.go:198-218 | every survivor is at least as new as every evicted entry, and keeping the last one evicted would not have left room |
| Cache.FileCache.Get | stashgram/cache.go:76-96 | a live entry is returned and nothing changes; an expired one is removed with its file |
| Cache.FileCache.Delete | stashgram/cache.go:127-136 | the entry and its file go, the others stay |
| Cache.FileCache.DeletePrefix | stashgram/cache.go:143-161 | exactly the keys with a non-empty prefix go |
| Cache.FileCache.CleanupTick | stashgram/cache.go:258-271 | exactly the expired entries go |
| Cache.EvictionMakesRoom | stashgram/cache.go:103-125 | after an eviction the new total is within the budget exactly when the new entry is; a larger one ends up alone |
| Cache.EvictedInWords | stashgram/cache.go:179-219 | after an eviction nothing expired is left, nothing that stays is older than something that had to go, and nothing goes early while there is room |
| Cache.EvictionIsDetermined | stashgram/cache.go:198-218 | when ages differ, oldest-first and minimal leave a single outcome |
| Rename.OrderIrrelevantIff | stashgram/storage.go:348-360 | all iteration orders give the simultaneous rename exactly when no moved path is a new name of a moved path |
| Rename.ClashLosesAnEntry | stashgram/storage.go:357-360 | otherwise some order loses an entry |
| Rename.UnrelatedNoClash | stashgram/storage.go:348-360 | unrelated paths never clash |
| Rename.RenameToItselfDeletes | stashgram/storage.go:357-360 | renaming a path to itself deletes the subtree in every order |
| Rename.RenameKeepsEntries | stashgram/storage.go:334-363 | to a free unrelated name the rename is a bijection on entries and adds only missing ancestors |
| Rename.RenameInWords | stashgram/storage.go:334-363 | the same in terms of path strings: the part after the old name is kept, nothing is left under the old name, and only missing folders above the new name are added |
| Rename.FreeAndUnrelatedInWords | stashgram/storage.go:334-363 | names are unrelated, and a name is free, exactly when plain comparisons of path strings say so |
| Rename.RenameKeepsTree | stashgram/storage.go:334-363 | such a rename keeps the tree exactly when no file is above the new name |
| Rename.RenameBackRestores | stashgram/storage.go:334-363 | renaming back restores the map up to the added folder markers |
| StorageDb.Storage.RenameFile | stashgram/storage.go:334-363 | the outcome is some order of the moves plus missing folders, saved; without a clash it is the simultaneous rename; to a free unrelated name every entry at or below the old name is at the same place under the new one and nothing else moves; an unknown path changes nothing |
| StorageDb.Storage.MoveKeys | stashgram/storage.go:357-360 | the loop over the moves in arbitrary order |
| StorageDb.Storage.CollectMoves | stashgram/storage.go:348-356 | the keys to move are the path and, for a folder, everything below it |
| StorageDb.Storage.RemoveFile | stashgram/storage.go:297-319 | exactly the path and, for a folder, what has it and a slash as prefix goes and the result is saved; an unknown path changes nothing |
| StorageDb.Storage.EnsureFolders | stashgram/storage.go:203-211 | the climbing loop ends and adds a marker for exactly the missing ancestors |
| StorageDb.Storage.Mkdir | stashgram/storage.go:215-231 | the root is left alone; otherwise the path and every missing path above it are stored as visible folders without chunks, a stored folder and every other stored path keep their entries, and the result is saved |
| StorageDb.Storage.AddFile | stashgram/storage.go:241-252 | the entry is stored, exactly the missing paths above it become folders, every other entry stays, and all is on disk |
| StorageDb.Storage.AddFileAsync | stashgram/storage.go:260-275 | the same in memory; disk is unchanged, and a save is due |
| StorageDb.Storage.SaverTick | stashgram/storage.go:169-185 | memory is copied to disk exactly when a save is due |
| StorageDb.Storage.Load | stashgram/storage.go:78-106 | memory becomes what was saved |
| StorageDb.MkdirKeepsEntriesIff | stashgram/storage.go:226-228 | making a folder keeps every entry exactly when the path is not a stored file |
| StorageDb.MkdirKeepsTree | stashgram/storage.go:215-231 | making a folder keeps the tree exactly when no file is above it |
| StorageDb.ClimbMarksAncestors | stashgram/storage.go:203-211 | climbing marks exactly the missing ancestors |
| StorageDb.Storage.ShowList | stashgram/storage.go:372-399 | the listing has exactly the proper names under which the directory has a visible entry; every line carries its own name and says whether that entry is a folder |
| StorageDb.Storage.CountChildren | stashgram/storage.go:408-437 | the prefix scan counts exactly the visible files and folders whose path has the directory and a slash as prefix |
| Walk.CountByWalking | stashgram/storage.go:372-437 | a recursive walk over listings ends and counts the same files and folders as the prefix scan |
| Walk.AllCovered | stashgram/storage.go:372-437 | in a tree every visible path below a directory is reached through exactly one listed child |
| Tree.StoreKeepsTree | stashgram/storage.go:241-252 | storing an entry keeps the tree exactly when no file is above it and, unless it is a folder, nothing is below it |
| Tree.WithAncestorsInWords | stashgram/storage.go:203-211 | exactly the missing paths above a path are added, as visible folders without chunks, and nothing stored changes |
| Tree.RemoveKeepsTree | stashgram/storage.go:310-318 | removing a subtree keeps the tree and leaves nothing below the path |
| Tree.RootedIffLocally | stashgram/storage.go:203-211 | every ancestor is a stored folder exactly when every parent is |
| Tree.IncompleteIsInvisible | stashgram/storage.go:379-437 | an incomplete entry changes no listing and no count |
| Tree.ChildOnTheWay | stashgram/storage.go:379-437 | every visible path below a directory lies at or below a listed child |
| Tree.ChildrenInWords | stashgram/storage.go:372-399 | a name is listed exactly when it is a proper name under which the directory has a visible entry |
| TreeRuns.TreesThroughoutIff | stashgram/storage.go:169-363 | over every history of writes, removals, renames to free unrelated names, saves and reloads, memory and disk stay trees exactly when each operation met its own condition |
| TreeRuns.StepKeepsTreesIff | stashgram/storage.go:169-363 | each operation leaves trees exactly when its condition holds |
| Paths.PrefixIffClimbs | stashgram/storage.go:203-211 | the prefix test with a slash agrees with climbing by parent directories |
| Paths.AncestorsExact | stashgram/storage.go:203-211 | the directories met by climbing are exactly those of which the path has the prefix |
| Paths.RelocateBack | stashgram/storage.go:348-356 | moving a path to another root and back gives the path |
| Stream.StreamReadSeeker.Read | stashgram/http_stream.go:43-47 | a read gives the bytes at the position and advances by as many; short means the end of the file |
| Stream.StreamReadSeeker.Seek | stashgram/http_stream.go:49-66 | the target by origin, or a refusal that moves nothing |
| Stream.StreamReadSeeker.ReadAll | stashgram/http_stream.go:43-47 | reading to the end of the file terminates with exactly the rest of the file |
| RateLimit.BandwidthBound | stashgram/ratelimit.go:44-76 | over any stretch of any history, bytes granted are at most one bucket plus the rate times the length of the stretch, and tokens stay in the bucket |
| RateLimit.LimiterBound | stashgram/ratelimit.go:29-76 | a limiter made for some bytes per second grants over any stretch at most that many bytes per second and one second's worth more |
| RateLimit.TokensConserved | stashgram/ratelimit.go:49-61 | granted bytes and remaining tokens never exceed the initial tokens and the rate times the time since |
| RateLimit.NeverGrantedAboveBurst | stashgram/ratelimit.go:54-61 | a request above the bucket size is never granted in any history |
| RateLimit.GrantedSometimeIff | stashgram/ratelimit.go:44-76 | a lone request can be granted at some time exactly when it fits the bucket |
| RateLimit.ChunkIsSentIff | stashgram/filesystem.go:689-694 | whatever anybody has asked for before, a request is granted at some later time exactly when it is no larger than one second's worth |
| RateLimit.DefaultChunkWaitsForever | stashgram/ratelimit.go:54-61 | under a limit of 10 MiB per second a request for the default chunk is never granted, in any history |
| RateLimit.SleepHelps | stashgram/ratelimit.go:63-74 | after one sleep the request is granted or a slice of its deficit is gone |
| RateLimit.NewRateLimiter | stashgram/ratelimit.go:29-40 | no limiter for a limit of zero or less, otherwise a full bucket |
| RateLimit.RateLimiter.TryTake | stashgram/ratelimit.go:48-72 | one turn under the lock: what was there and the rate times the time since, up to the burst; the bytes are taken exactly if they are there, otherwise the sleep is a quarter of a second or exactly what the deficit needs if that is less |
| RateLimit.RateLimiter.WaitN | stashgram/ratelimit.go:44-76 | for any request and any number of rounds: what does not fit the bucket is still waiting after all of them; what fits is served after at most one sleep per slice of its deficit and one more, its sleeps are no longer than the deficit needs at the rate and the whole wait no shorter; exactly its bytes are granted, or nothing |
| RateLimit.WaitForChunk | stashgram/filesystem.go:167-168 | a transfer has a limiter exactly when its limit is positive; without one nobody waits, and a new one lets a chunk through at once exactly if it is at most the limit times 1024 bytes, and never otherwise |
| KeepAlive.OneProberPerClient | stashgram/filesystem.go:231-263 | with a positive interval, in every reachable state at most one prober is current, and one is exactly while a client is installed |
| KeepAlive.SupersededStartsNoProbe | stashgram/filesystem.go:239-248 | a superseded prober never starts another probe |
| KeepAlive.SupersededEndsSoon | stashgram/filesystem.go:239-263 | a superseded prober ends after at most two more steps of its own |
| KeepAlive.ClientsAreNotReused | stashgram/filesystem.go:371-379 | a disconnected client is never installed again |
| KeepAlive.TeardownHitsAStrangerIff | stashgram/filesystem.go:250-262 | a failed probe disconnects a client that it did not probe exactly when it was superseded and a client is installed |
| KeepAlive.TeardownDropsTheClient | stashgram/filesystem.go:258-261 | a failed probe of any prober takes the installed client away and ends that prober alone; a current prober's is the client that it probed |
| KeepAlive.ANewConnectionIsTornDown | stashgram/filesystem.go:250-262 | a run in which that happens |
| KeepAlive.StepKeepsInv | stashgram/filesystem.go:176-263 | each step keeps: distinct generations, one current prober per client, a probe is of the installed client exactly when its prober is current |
| KeepAlive.Connection.GetClient | stashgram/filesystem.go:176-217 | an installed client is handed out unchanged; otherwise a connect installs a new one with its prober |
| KeepAlive.Connection.StartKeepAliveLocked | stashgram/filesystem.go:231-238 | with a positive interval the generation goes up and one prober starts with it |
| KeepAlive.Connection.Reconnect | stashgram/filesystem.go:371-379 | the generation goes up and no client is installed |
| KeepAlive.Connection.Close | stashgram/filesystem.go:399-408 | the same for closing |
| KeepAlive.Connection.Wake | stashgram/filesystem.go:241-248 | a woken prober goes on exactly when it is current, otherwise it ends |
| KeepAlive.Connection.ProbeEnded | stashgram/filesystem.go:250-258 | a probe that succeeds lets its prober sleep, one that fails is acted on later |
| KeepAlive.Connection.GiveUp | stashgram/filesystem.go:258-261 | a failed prober reconnects without another look at the generation, and ends |

## Left out

- RateLimit.RateLimiter.WaitN: promises service only to a lone caller; fairness among several callers is not promised by the code.
- FileSystems.FileSystem.FetchChunk: one step with nothing in between; `ReadRuns` has the look-up, the fetch and the caching as separate steps.
- FileSystems.FileSystem.DeletePath: one step; `ReadRuns` has its two halves.
- FileSystems.FileSystem.RenamePath: one step, and promises right reads only for a free, unrelated target; the halves are in `ReadRuns`, stored targets in `RenamedReads`, and related ones are stated on the storage map, where they are order-dependent.
- FileSystems.FileSystem.StoreEntry: does not promise right reads after an overwrite with other chunks, because the code does not give them.
- FileSystems.FileSystem.ReadRangeSequential: the result buffer is a sequence that grows, not an allocated slice that is cut at the end.
- Download.FetchAll: takes the workers' turns one after the other; `DownloadRun` interleaves them.
- Download.DownloadFile: as `Download.FetchAll`; errors creating or writing the local file appear only in `DownloadRun`, and streaming to standard output is not part of this model.
- ReadRuns.StepKeepsRightIff: the three clearings of a delete or rename are one step, but any part of them is an eviction, which is a step of its own; renames to a path above or below the old one, whose outcome depends on the map's order, are not steps.
- Cache.FileCache.DropOldest: sorting by age is modelled as taking an oldest entry repeatedly; entries of equal age may go in any order, as with the unstable sort.
- Upload: empty files, missing local files and sessions without chats are refused by the code before any step; the model starts after these checks. Reading the local file, random names, temporary files and retries are one step that sends or fails.
- The kept slots that the initial entry shares with the chunk array: storage holds a value, and `UploadLoops.UploadLoop.Record` shows that only one new slot is written.
- Sessions and the merging of several sessions in look-ups and listings; the errors for an unknown session.
- `normalizePath` and `path.Clean`: paths are already clean; a leading double slash and the empty path as a stored key are not in the domain.
- `LoadIfChanged` by modification time, other processes editing the storage file, failing disk writes and failing saves.
- Loading and saving the cache index, deleted cache files, the integrity of cached bytes on disk, and clock skew.
- Encryption, digests, JSON and base64 themselves; a chunk without a password whose message happens to be encrypted.
- `verifyFileHash`, which succeeds on every path (`filesystem.go:892-900`).
- The Telegram client, proxies, timeouts and the eight retries; HTTP, FTP and WebDAV servers; commands and settings.
- The interval between ticks, the moment of disconnecting a client, and what a transfer on a torn-down client does.
- Overflow of 64-bit sums, rounding of floating point and of durations in the limiter.
- Size and info queries, `HumanSize` and sorted directory reads, which would add only easy members.
