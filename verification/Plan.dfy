/** Cutting a file into fixed-size chunks, and deciding whether an earlier cut can be continued. */
module Plan {
  import opened Content

  const MIN_CHUNK_SIZE := 1 * 1024 * 1024
  const DEFAULT_CHUNK_SIZE := 450 * 1024 * 1024
  const MAX_CHUNK_SIZE := 2000 * 1024 * 1024
  const DEFAULT_CONCURRENCY := 4
  const MAX_CONCURRENT_UPLOAD_CHUNKS := 32

  datatype ChunkPlan = ChunkPlan(index: int, offset: int, size: int)

  function ClampChunkSize(chunkSize: int): (c: int)
    ensures MIN_CHUNK_SIZE <= c <= MAX_CHUNK_SIZE
    ensures MIN_CHUNK_SIZE <= chunkSize <= MAX_CHUNK_SIZE ==> c == chunkSize
  {
    if chunkSize <= 0 then DEFAULT_CHUNK_SIZE
    else if chunkSize < MIN_CHUNK_SIZE then MIN_CHUNK_SIZE
    else if chunkSize > MAX_CHUNK_SIZE then MAX_CHUNK_SIZE
    else chunkSize
  }

  function ClampConcurrency(concurrency: int, max: int): (c: int)
    requires 0 < max
    ensures 1 <= c <= max
    ensures 1 <= concurrency <= max ==> c == concurrency
  {
    var wanted := if concurrency <= 0 then DEFAULT_CONCURRENCY else concurrency;
    if wanted > max then max else wanted
  }

  function Distance(x: int, y: int): int {
    if x < y then y - x else x - y
  }

  /** A chunk size that is set becomes the nearest one between 1 MiB and 2000 MiB; one that is not becomes 450 MiB. */
  lemma ClampsToNearest(chunkSize: int)
    ensures chunkSize <= 0 ==> ClampChunkSize(chunkSize) == 450 * 1024 * 1024
    ensures 0 < chunkSize ==>
              && 1024 * 1024 <= ClampChunkSize(chunkSize) <= 2000 * 1024 * 1024
              && forall c :: 1024 * 1024 <= c <= 2000 * 1024 * 1024 ==> Distance(chunkSize, ClampChunkSize(chunkSize)) <= Distance(chunkSize, c)
  {
  }

  /** A concurrency that is set becomes the nearest allowed one; one that is not becomes four, or the maximum if that is less. */
  lemma ClampsConcurrency(concurrency: int, max: int)
    requires 0 < max
    ensures concurrency <= 0 ==> ClampConcurrency(concurrency, max) == if 4 <= max then 4 else max
    ensures 0 < concurrency ==>
              forall c :: 1 <= c <= max ==> Distance(concurrency, ClampConcurrency(concurrency, max)) <= Distance(concurrency, c)
  {
  }

  /** Conversion to a signed 32-bit integer: keep the low 32 bits, two's complement. */
  function ToInt32(x: int): int {
    (x + 0x8000_0000) % 0x1_0000_0000 - 0x8000_0000
  }

  /** The one number of 32 bits, with a sign, that differs from the given one by whole multiples of two to the 32. */
  lemma ToInt32Wraps(x: int)
    ensures -0x8000_0000 <= ToInt32(x) < 0x8000_0000 && (x - ToInt32(x)) % 0x1_0000_0000 == 0
  {
  }

  /** Number of chunks: the file size over the chunk size, rounded up. */
  function NumChunks(total: int, chunkSize: int): nat
    requires 0 <= total && 0 < chunkSize
  {
    (total + chunkSize - 1) / chunkSize
  }

  /** Where chunk `k` starts; the end of the file from the last chunk on. */
  function Boundary(k: int, chunkSize: int, total: int): int {
    if k * chunkSize < total then k * chunkSize else total
  }

  /** The cut in closed form. */
  function Cut(total: int, chunkSize: int): seq<ChunkPlan>
    requires 0 <= total && 0 < chunkSize
  {
    seq(NumChunks(total, chunkSize), k requires 0 <= k < NumChunks(total, chunkSize) =>
      ChunkPlan(k, Boundary(k, chunkSize, total), Boundary(k + 1, chunkSize, total) - Boundary(k, chunkSize, total)))
  }

  lemma NumChunksBounds(total: int, chunkSize: int, k: int)
    requires 0 <= total && 0 < chunkSize && 0 <= k
    ensures k < NumChunks(total, chunkSize) <==> k * chunkSize < total
  {
    var n := NumChunks(total, chunkSize);
    var r := (total + chunkSize - 1) % chunkSize;
    assert total + chunkSize - 1 == n * chunkSize + r;
    if k < n {
      ScaleMonotone(k + 1, n, chunkSize);
      assert (k + 1) * chunkSize == k * chunkSize + chunkSize;
    } else {
      ScaleMonotone(n, k, chunkSize);
    }
  }

  lemma ScaleMonotone(a: int, b: int, c: int)
    requires a <= b && 0 <= c
    ensures a * c <= b * c
  {
    assert b * c - a * c == (b - a) * c;
  }

  /**
   The cut tiles the file: it starts at 0, ends at the file size, every chunk but the last is
   exactly `chunkSize` long, the last is neither empty nor longer.
   */
  lemma CutTiles(total: int, chunkSize: int, k: int)
    requires 0 < total && 0 < chunkSize && 0 <= k < NumChunks(total, chunkSize)
    ensures Boundary(0, chunkSize, total) == 0
    ensures Boundary(NumChunks(total, chunkSize), chunkSize, total) == total
    ensures Boundary(k, chunkSize, total) == k * chunkSize < Boundary(k + 1, chunkSize, total) <= total
    ensures k + 1 < NumChunks(total, chunkSize) ==> Boundary(k + 1, chunkSize, total) == Boundary(k, chunkSize, total) + chunkSize
    ensures Boundary(k + 1, chunkSize, total) - Boundary(k, chunkSize, total) <= chunkSize
  {
    NumChunksBounds(total, chunkSize, 0);
    NumChunksBounds(total, chunkSize, k);
    NumChunksBounds(total, chunkSize, k + 1);
    NumChunksBounds(total, chunkSize, NumChunks(total, chunkSize));
    assert (k + 1) * chunkSize == k * chunkSize + chunkSize;
  }

  /** Chunk `k` has what is left of the file from its start on, up to the chunk size; nothing is left after the last. */
  lemma PlannedSizes(total: int, chunkSize: int, k: nat)
    requires 0 < total && 0 < chunkSize
    ensures k < NumChunks(total, chunkSize) <==> 0 < total - k * chunkSize
    ensures k < NumChunks(total, chunkSize) ==>
              Cut(total, chunkSize)[k] == ChunkPlan(k, k * chunkSize, if total - k * chunkSize < chunkSize then total - k * chunkSize else chunkSize)
  {
    NumChunksBounds(total, chunkSize, k);
    if k < NumChunks(total, chunkSize) {
      CutTiles(total, chunkSize, k);
      assert (k + 1) * chunkSize == k * chunkSize + chunkSize;
    }
  }

  /** With a clamped chunk size no planned size is changed by the conversion to 32 bits. */
  lemma PlannedSizeFitsInt32(total: int, setting: int, k: int)
    requires 0 < total && 0 <= k < NumChunks(total, ClampChunkSize(setting))
    ensures var p := Cut(total, ClampChunkSize(setting))[k];
            0 < p.size <= MAX_CHUNK_SIZE && ToInt32(p.size) == p.size
  {
    CutTiles(total, ClampChunkSize(setting), k);
  }

  /** The loop that lays out the chunks computes exactly the closed form. */
  method PlanChunks(totalSize: int, chunkSize: int) returns (plans: seq<ChunkPlan>)
    requires 0 < chunkSize
    ensures totalSize <= 0 ==> plans == []
    ensures totalSize > 0 ==> plans == Cut(totalSize, chunkSize)
  {
    plans := [];
    if totalSize <= 0 {
      return;
    }
    var offset := 0;
    var idx := 0;
    NumChunksBounds(totalSize, chunkSize, 0);
    while offset < totalSize
      invariant 0 <= idx <= NumChunks(totalSize, chunkSize)
      invariant offset == Boundary(idx, chunkSize, totalSize)
      invariant offset < totalSize <==> idx < NumChunks(totalSize, chunkSize)
      invariant plans == Cut(totalSize, chunkSize)[..idx]
      decreases totalSize - offset
    {
      CutTiles(totalSize, chunkSize, idx);
      NumChunksBounds(totalSize, chunkSize, idx + 1);
      assert (idx + 1) * chunkSize == idx * chunkSize + chunkSize;
      var size := chunkSize;
      if offset + size > totalSize {
        size := totalSize - offset;
      }
      plans := plans + [ChunkPlan(idx, offset, size)];
      offset := offset + size;
      idx := idx + 1;
    }
  }

  // ---------------------------------------------------------------- the resume check

  /** How many of the chunks of an interrupted upload are kept: all of them or none. */
  function ResumePoint(resume: seq<ChunkFile>, total: int, chunkSize: int): (k: nat)
    requires 0 < total && 0 < chunkSize
    ensures k <= |resume| && k <= NumChunks(total, chunkSize)
  {
    if 0 < |resume| <= NumChunks(total, chunkSize) && TotalSize(resume) == Boundary(|resume|, chunkSize, total)
    then |resume| else 0
  }

  /** The check as the code runs it: a summing loop and the end of the last planned chunk it covers. */
  method CheckResume(resume: seq<ChunkFile>, plans: seq<ChunkPlan>, ghost total: int, ghost chunkSize: int)
      returns (resumeFrom: nat)
    requires 0 < total && 0 < chunkSize && plans == Cut(total, chunkSize)
    ensures resumeFrom == ResumePoint(resume, total, chunkSize)
  {
    resumeFrom := 0;
    if |resume| > 0 && |resume| <= |plans| {
      var resumedSize := 0;
      for i := 0 to |resume|
        invariant resumedSize == Offset(resume, i)
      {
        resumedSize := resumedSize + resume[i].size;
      }
      var boundary := plans[|resume| - 1].offset + plans[|resume| - 1].size;
      if resumedSize == boundary {
        resumeFrom := |resume|;
      }
    }
  }

  /**
   Soundness: if old chunks hold some prefix of the file and the check keeps `k > 0` of them, then
   their bytes end exactly where planned chunk `k` begins, however they were cut.
   */
  lemma ResumeIsSound(remote: Remote, resume: seq<ChunkFile>, file: Bytes, chunkSize: int)
    requires 0 < |file| && 0 < chunkSize
    requires 0 <= TotalSize(resume) <= |file| && Holds(remote, resume, file[..TotalSize(resume)])
    ensures var k := ResumePoint(resume, |file|, chunkSize);
            && 0 <= Boundary(k, chunkSize, |file|) <= |file|
            && TotalSize(resume[..k]) == Boundary(k, chunkSize, |file|)
            && Holds(remote, resume[..k], file[..Boundary(k, chunkSize, |file|)])
            && (k < NumChunks(|file|, chunkSize) ==> Cut(|file|, chunkSize)[k].offset == TotalSize(resume[..k]))
            && (k == NumChunks(|file|, chunkSize) ==> TotalSize(resume[..k]) == |file|)
  {
    var k := ResumePoint(resume, |file|, chunkSize);
    assert resume[..|resume|] == resume;
    NumChunksBounds(|file|, chunkSize, k);
    ScaleMonotone(0, k, chunkSize);
    if k == 0 {
      assert resume[..k] == [];
    }
  }

  /** `chunks` ends on a chunk boundary of the cut with `chunkSize`. */
  ghost predicate CutBy(chunks: seq<ChunkFile>, total: int, chunkSize: int)
    requires 0 < total && 0 < chunkSize
  {
    |chunks| <= NumChunks(total, chunkSize) && TotalSize(chunks) == Boundary(|chunks|, chunkSize, total)
  }

  /** Completeness: a prefix that ends on its own chunk boundary is always kept whole. */
  lemma ResumeIsComplete(resume: seq<ChunkFile>, total: int, chunkSize: int)
    requires 0 < total && 0 < chunkSize
    ensures ResumePoint(resume, total, chunkSize) == |resume| <==> resume == [] || CutBy(resume, total, chunkSize)
  {
  }

  /**
   Changing the chunk size: an unfinished prefix cut with one size survives a restart with another
   size exactly when the two sizes are equal.
   */
  lemma ResumeAcrossChunkSizes(resume: seq<ChunkFile>, total: int, oldSize: int, newSize: int)
    requires 0 < total && 0 < oldSize && 0 < newSize && resume != []
    requires CutBy(resume, total, oldSize) && |resume| < NumChunks(total, oldSize)
    ensures ResumePoint(resume, total, newSize) == |resume| <==> oldSize == newSize
  {
    var k := |resume|;
    NumChunksBounds(total, oldSize, k);
    if ResumePoint(resume, total, newSize) == k {
      assert k * oldSize == Boundary(k, newSize, total);
      assert k * oldSize == k * newSize;
      EqualFactors(k, oldSize, newSize);
    }
  }

  lemma EqualFactors(k: int, a: int, b: int)
    requires 0 < k && k * a == k * b
    ensures a == b
  {
    assert k * (a - b) == 0;
  }
}
