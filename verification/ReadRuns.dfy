/**
 Reads, deletes, renames and uploads that run at the same time, as a transition system. Nothing locks the cache and
 the storage together: a read looks its entry up, takes chunk after chunk from the cache or fetches and caches it
 later, and never looks its entry up again; a delete or a rename changes the cache first and the storage later.
 */
module ReadRuns {
  import opened Content
  import opened Paths
  import opened Tree
  import opened Rename
  import opened CacheKeys
  import opened CachedReads
  import opened ServedReads

  /**
   A read under way of chunks `first`, `first + 1`, ... of the entry that it has looked up. `got` is what it has
   read, `held` a chunk that it has fetched and not yet cached, `blob` a whole-file blob that it was given instead.
   */
  datatype Reader = Reader(path: string, entry: FileEntry, first: nat, next: nat, got: Bytes, held: Option<Bytes>, blob: Option<Bytes>)

  /** A rename under way that has read a cached blob and not yet cached it under the new name. */
  datatype Carrier = Carrier(to: string, data: Bytes)

  datatype State = State(files: Files, remote: Remote, blobs: Blobs, readers: map<nat, Reader>, carriers: map<nat, Carrier>)

  datatype Op =
    | Open(id: nat, p: string, first: nat)
    | Hit(id: nat)
    | HitBlob(id: nat)
    | FetchNext(id: nat)
    | Put(id: nat)
    | PutWhole(id: nat)
    | Close(id: nat)
    | Evict(keep: set<string>)
    | Clear(p: string)
    | Remove(p: string)
    | CarryTake(id: nat, from: string, to: string)
    | CarryPut(id: nat)
    | Move(from: string, to: string, now: int)
    | Store(p: string, entry: FileEntry, now: int)
    | Crash(saved: Files)
    | Post(remote: Remote)

  // ---------------------------------------------------------------- steps
  //
  // A crash restarts the process with whatever the storage file had; the cache is on disk and survives, and what of
  // it does not is an eviction.

  function NextKey(r: Reader): string {
    ChunkKey(r.path, r.next)
  }

  predicate Ready(s: State, id: nat) {
    id in s.readers && s.readers[id].held.None? && s.readers[id].next < |s.readers[id].entry.chunks|
  }

  ghost predicate Enabled(s: State, op: Op) {
    match op
    case Open(id, p, first) => id !in s.readers && p in s.files && !s.files[p].isFolder && first <= |s.files[p].chunks|
    case Hit(id) => Ready(s, id) && NextKey(s.readers[id]) in s.blobs && s.blobs[NextKey(s.readers[id])] != []
    case HitBlob(id) =>
      id in s.readers && s.readers[id].path in s.blobs && TotalSize(s.readers[id].entry.chunks) <= MAX_FULL_FILE_RAM_BUFFER
    case FetchNext(id) => Ready(s, id) && Fetch(s.remote, s.readers[id].entry.chunks[s.readers[id].next]).Ok?
    case Put(id) => id in s.readers && s.readers[id].held.Some? && s.readers[id].next < |s.readers[id].entry.chunks|
    case PutWhole(id) =>
      && id in s.readers && s.readers[id].held.None? && s.readers[id].first == 0
      && s.readers[id].next == |s.readers[id].entry.chunks|
      && 0 < TotalSize(s.readers[id].entry.chunks) <= MAX_FULL_FILE_RAM_BUFFER
    case Close(id) => id in s.readers
    case Evict(_) => true
    case Clear(_) => true
    case Remove(_) => true
    case CarryTake(id, from, _) => id !in s.carriers && from in s.blobs
    case CarryPut(id) => id in s.carriers
    case Move(from, to, _) => from in s.files && Unrelated(from, to)
    case Store(_, e, _) => EntryReadable(s.remote, e)
    case Crash(saved) => Readable(saved, s.remote)
    case Post(remote) => Grows(s.remote, remote)
  }

  function Read(s: State, id: nat, data: Bytes): State
    requires id in s.readers
  {
    var r := s.readers[id];
    s.(readers := s.readers[id := r.(next := r.next + 1, got := r.got + data, held := None)])
  }

  function Apply(s: State, op: Op): State
    requires Enabled(s, op)
  {
    match op
    case Open(id, p, first) => s.(readers := s.readers[id := Reader(p, s.files[p], first, first, [], None, None)])
    case Hit(id) => Read(s, id, s.blobs[NextKey(s.readers[id])])
    case HitBlob(id) => s.(readers := s.readers[id := s.readers[id].(blob := Some(s.blobs[s.readers[id].path]))])
    case FetchNext(id) =>
      var r := s.readers[id];
      s.(readers := s.readers[id := r.(held := Some(Fetch(s.remote, r.entry.chunks[r.next]).value))])
    case Put(id) =>
      var r := s.readers[id];
      Read(s, id, r.held.value).(blobs := s.blobs[NextKey(r) := r.held.value])
    case PutWhole(id) => s.(blobs := s.blobs[s.readers[id].path := s.readers[id].got])
    case Close(id) => s.(readers := s.readers - {id})
    case Evict(keep) => s.(blobs := map k | k in s.blobs && k in keep :: s.blobs[k])
    case Clear(p) => s.(blobs := Cleared(s.blobs, p))
    case Remove(p) => if p in s.files then s.(files := s.files - Subtree(s.files, p)) else s
    case CarryTake(id, from, to) => s.(carriers := s.carriers[id := Carrier(to, s.blobs[from])])
    case CarryPut(id) =>
      s.(blobs := s.blobs[s.carriers[id].to := s.carriers[id].data], carriers := s.carriers - {id})
    case Move(from, to, now) => s.(files := Renamed(s.files, from, to, now))
    case Store(p, e, now) => s.(files := WithAncestors(s.files[p := e], p, now))
    case Crash(saved) => s.(files := saved, readers := map[], carriers := map[])
    case Post(remote) => s.(remote := remote)
  }

  // ---------------------------------------------------------------- exactly which steps mislead reads

  /**
   A read is right for the entry that it has looked up: it has exactly the bytes of the chunks that it has passed, it
   holds its next chunk, and a blob that it was given is the start of the file or the file the start of it.
   */
  ghost predicate ReaderRight(remote: Remote, r: Reader) {
    && r.first <= r.next <= |r.entry.chunks| && EntryReadable(remote, r.entry)
    && Decode(remote, r.entry.chunks[r.first..r.next]) == Ok(r.got)
    && (r.held.Some? ==> r.next < |r.entry.chunks| && Fetch(remote, r.entry.chunks[r.next]) == Ok(r.held.value))
    && (r.blob.Some? ==> Agree(r.blob.value, Text(remote, r.entry)))
  }

  ghost predicate ReadersRight(remote: Remote, readers: map<nat, Reader>) {
    forall id :: id in readers ==> ReaderRight(remote, readers[id])
  }

  /**
   Every stored file decodes, everything that a new read would take from the cache is right, and so is everything
   that the reads under way have.
   */
  ghost predicate AllRight(s: State) {
    Readable(s.files, s.remote) && ReadsRight(s.files, s.remote, s.blobs) && ReadersRight(s.remote, s.readers)
  }

  /**
   The condition of each step, which the code does not look at. It compares digests in chunk records, and bytes only
   for whole files: a chunk taken from the cache has the digest that the read's own record asks for; a chunk is cached
   only while the record stored for it is still the one that the read has looked up; a whole file is cached, or a blob
   carried over, only while it agrees with what is stored there; and what is stored agrees with what is cached there.
   */
  ghost predicate Harmless(s: State, op: Op)
    requires Enabled(s, op)
  {
    match op
    case Hit(id) =>
      var r := s.readers[id];
      r.entry.chunks[r.next].hash == ChunkHash(s.blobs[NextKey(r)])
    case HitBlob(id) => Agree(s.blobs[s.readers[id].path], Text(s.remote, s.readers[id].entry))
    case Put(id) =>
      var r := s.readers[id];
      RecordsAre(s.files, NextKey(r), r.entry.chunks[r.next].hash) && FileAgrees(s.files, s.remote, NextKey(r), r.held.value)
    case PutWhole(id) =>
      var r := s.readers[id];
      FileAgrees(s.files, s.remote, r.path, Text(s.remote, r.entry)) && RecordsAre(s.files, r.path, ChunkHash(Text(s.remote, r.entry)))
    case CarryPut(id) =>
      var c := s.carriers[id];
      FileAgrees(s.files, s.remote, c.to, c.data) && (c.data != [] ==> RecordsAre(s.files, c.to, ChunkHash(c.data)))
    case Store(p, e, _) => EntryFits(s.remote, s.blobs, p, e)
    case Move(from, to, _) =>
      forall q :: q in Subtree(s.files, from) ==> EntryFits(s.remote, s.blobs, NewName(s.files, from, to, q), s.files[q])
    case Crash(saved) => forall p :: p in saved ==> EntryFits(s.remote, s.blobs, p, saved[p])
    case _ => true
  }

  // ---------------------------------------------------------------- the steps of reads

  lemma DecodeOneMore(remote: Remote, chunks: seq<ChunkFile>, first: nat, next: nat, got: Bytes, data: Bytes)
    requires first <= next < |chunks| && Decode(remote, chunks[first..next]) == Ok(got)
    ensures Decode(remote, chunks[first..next + 1]) == Ok(got + data) <==> Fetch(remote, chunks[next]) == Ok(data)
  {
    var more := chunks[first..next + 1];
    assert more[..|more| - 1] == chunks[first..next];
    var last := Fetch(remote, chunks[next]);
    assert more[|more| - 1] == chunks[next];
    assert Decode(remote, more) == if last.Ok? then Ok(got + last.value) else last;
    if last.Ok? {
      SameRest(got, last.value, data);
    }
  }

  lemma SameRest(start: Bytes, a: Bytes, b: Bytes)
    ensures start + a == start + b <==> a == b
  {
    assert a == (start + a)[|start|..] && b == (start + b)[|start|..];
  }

  lemma OneReaderMoved(s: State, id: nat, r: Reader)
    requires ReadersRight(s.remote, s.readers)
    ensures ReadersRight(s.remote, s.readers[id := r]) <==> ReaderRight(s.remote, r)
  {
    hide ReaderRight;
    var after := s.readers[id := r];
    assert id in after && after[id] == r;
  }

  lemma HitKeepsRightIff(s: State, id: nat)
    requires AllRight(s) && Enabled(s, Hit(id))
    ensures AllRight(Apply(s, Hit(id))) <==> Harmless(s, Hit(id))
  {
    var r := s.readers[id];
    var data := s.blobs[NextKey(r)];
    assert ReaderRight(s.remote, r);
    DigestTellsChunk(s.remote, r.entry, r.next, data);
    DecodeOneMore(s.remote, r.entry.chunks, r.first, r.next, r.got, data);
    OneReaderMoved(s, id, r.(next := r.next + 1, got := r.got + data, held := None));
  }

  lemma HitBlobKeepsRightIff(s: State, id: nat)
    requires AllRight(s) && Enabled(s, HitBlob(id))
    ensures AllRight(Apply(s, HitBlob(id))) <==> Harmless(s, HitBlob(id))
  {
    var r := s.readers[id];
    assert ReaderRight(s.remote, r);
    OneReaderMoved(s, id, r.(blob := Some(s.blobs[r.path])));
  }

  lemma FetchKeepsRight(s: State, id: nat)
    requires AllRight(s) && Enabled(s, FetchNext(id))
    ensures AllRight(Apply(s, FetchNext(id)))
  {
    var r := s.readers[id];
    assert ReaderRight(s.remote, r);
    OneReaderMoved(s, id, r.(held := Some(Fetch(s.remote, r.entry.chunks[r.next]).value)));
  }

  lemma OpenKeepsRight(s: State, id: nat, p: string, first: nat)
    requires AllRight(s) && Enabled(s, Open(id, p, first))
    ensures AllRight(Apply(s, Open(id, p, first)))
  {
    assert EntryReadable(s.remote, s.files[p]);
    assert s.files[p].chunks[first..first] == [];
    OneReaderMoved(s, id, Reader(p, s.files[p], first, first, [], None, None));
  }

  lemma PutKeepsRightIff(s: State, id: nat)
    requires AllRight(s) && Enabled(s, Put(id))
    ensures AllRight(Apply(s, Put(id))) <==> Harmless(s, Put(id))
  {
    var r := s.readers[id];
    var data := r.held.value;
    assert ReaderRight(s.remote, r);
    DigestTellsChunk(s.remote, r.entry, r.next, data);
    ChunkIsNotEmpty(s.remote, r.entry, r.next);
    DecodeOneMore(s.remote, r.entry.chunks, r.first, r.next, r.got, data);
    OneReaderMoved(s, id, r.(next := r.next + 1, got := r.got + data, held := None));
    PutKeepsReadsIff(s.files, s.remote, s.blobs, NextKey(r), data);
    KeyServedByDigest(s.files, s.remote, NextKey(r), data);
  }

  /** A read that has passed all chunks of its entry has its whole file. */
  lemma WholeGot(remote: Remote, r: Reader)
    requires ReaderRight(remote, r) && r.first == 0 && r.next == |r.entry.chunks|
    ensures r.got == Text(remote, r.entry) && |r.got| == TotalSize(r.entry.chunks)
  {
    assert r.entry.chunks[0..|r.entry.chunks|] == r.entry.chunks;
    ReadableDecodes(remote, r.entry);
    TextLength(remote, r.entry);
  }

  lemma PutWholeKeepsRightIff(s: State, id: nat)
    requires AllRight(s) && Enabled(s, PutWhole(id))
    ensures AllRight(Apply(s, PutWhole(id))) <==> Harmless(s, PutWhole(id))
  {
    var r := s.readers[id];
    WholeGot(s.remote, r);
    PutKeepsReadsIff(s.files, s.remote, s.blobs, r.path, r.got);
    KeyServedByDigest(s.files, s.remote, r.path, r.got);
  }

  // ---------------------------------------------------------------- the steps of changes

  lemma CarryPutKeepsRightIff(s: State, id: nat)
    requires AllRight(s) && Enabled(s, CarryPut(id))
    ensures AllRight(Apply(s, CarryPut(id))) <==> Harmless(s, CarryPut(id))
  {
    var c := s.carriers[id];
    PutKeepsReadsIff(s.files, s.remote, s.blobs, c.to, c.data);
    KeyServedByDigest(s.files, s.remote, c.to, c.data);
  }

  lemma RemoveKeepsRight(s: State, p: string)
    requires AllRight(s)
    ensures AllRight(Apply(s, Remove(p)))
  {
    var s' := Apply(s, Remove(p));
    ReadsRightByPath(s.files, s.remote, s.blobs);
    ReadsRightByPath(s'.files, s'.remote, s'.blobs);
  }

  lemma StoreKeepsRightIff(s: State, p: string, e: FileEntry, now: int)
    requires AllRight(s) && EntryReadable(s.remote, e)
    ensures AllRight(Apply(s, Store(p, e, now))) <==> EntryFits(s.remote, s.blobs, p, e)
  {
    var s' := Apply(s, Store(p, e, now));
    StoreReadable(s.files, s.remote, p, e, now);
    EntryServedByDigest(s.remote, s.blobs, p, e);
    ReadsRightByPath(s.files, s.remote, s.blobs);
    ReadsRightByPath(s'.files, s'.remote, s'.blobs);
    assert p in s'.files && s'.files[p] == e;
    forall q | q in s'.files && q != p
      ensures EntryServed(s.remote, s.blobs, q, s'.files[q])
    {
      assert q in s.files ==> EntryServed(s.remote, s.blobs, q, s.files[q]);
    }
  }

  lemma MoveKeepsRightIff(s: State, from: string, to: string, now: int)
    requires AllRight(s) && Enabled(s, Move(from, to, now))
    ensures AllRight(Apply(s, Move(from, to, now))) <==> Harmless(s, Move(from, to, now))
  {
    var after := Renamed(s.files, from, to, now);
    ReadableAfterRename(s.files, s.remote, from, to, now);
    RenamedEntries(s.files, from, to, now);
    ReadsRightByPath(s.files, s.remote, s.blobs);
    ReadsRightByPath(after, s.remote, s.blobs);
    forall q | q in Subtree(s.files, from)
      ensures EntryServed(s.remote, s.blobs, NewName(s.files, from, to, q), s.files[q])
              <==> EntryFits(s.remote, s.blobs, NewName(s.files, from, to, q), s.files[q])
    {
      assert EntryReadable(s.remote, s.files[q]);
      EntryServedByDigest(s.remote, s.blobs, NewName(s.files, from, to, q), s.files[q]);
    }
    if Harmless(s, Move(from, to, now)) {
      forall k | k in after
        ensures EntryServed(s.remote, s.blobs, k, after[k])
      {
        if q :| q in Subtree(s.files, from) && NewName(s.files, from, to, q) == k {
          assert EntryFits(s.remote, s.blobs, k, s.files[q]);
        } else if k in s.files && after[k] == s.files[k] {
          assert EntryServed(s.remote, s.blobs, k, s.files[k]);
        }
      }
    }
    if AllRight(Apply(s, Move(from, to, now))) {
      forall q | q in Subtree(s.files, from)
        ensures EntryFits(s.remote, s.blobs, NewName(s.files, from, to, q), s.files[q])
      {
        assert EntryServed(s.remote, s.blobs, NewName(s.files, from, to, q), after[NewName(s.files, from, to, q)]);
      }
    }
  }

  lemma CrashKeepsRightIff(s: State, saved: Files)
    requires AllRight(s) && Enabled(s, Crash(saved))
    ensures AllRight(Apply(s, Crash(saved))) <==> Harmless(s, Crash(saved))
  {
    ReadsRightByPath(saved, s.remote, s.blobs);
    forall p | p in saved
      ensures EntryServed(s.remote, s.blobs, p, saved[p]) <==> EntryFits(s.remote, s.blobs, p, saved[p])
    {
      assert EntryReadable(s.remote, saved[p]);
      EntryServedByDigest(s.remote, s.blobs, p, saved[p]);
    }
  }

  lemma {:induction false} DecodeGrows(remote: Remote, remote': Remote, chunks: seq<ChunkFile>)
    requires Grows(remote, remote') && Decode(remote, chunks).Ok?
    ensures Decode(remote', chunks) == Decode(remote, chunks)
  {
    if chunks != [] {
      DecodeGrows(remote, remote', chunks[..|chunks| - 1]);
    }
  }

  lemma ReaderGrows(remote: Remote, remote': Remote, r: Reader)
    requires ReaderRight(remote, r) && Grows(remote, remote')
    ensures ReaderRight(remote', r) && Text(remote', r.entry) == Text(remote, r.entry)
  {
    var e := r.entry;
    ReadableDecodes(remote, e);
    HoldsMonotone(remote, remote', e.chunks, Text(remote, e));
    HoldsIffDecodes(remote', e.chunks, Text(remote, e));
    DecodeGrows(remote, remote', e.chunks[r.first..r.next]);
    if r.held.Some? {
      FetchGrows(remote, remote', e, r.next);
    }
  }

  lemma PostKeepsRight(s: State, remote: Remote)
    requires AllRight(s) && Grows(s.remote, remote)
    ensures AllRight(Apply(s, Post(remote)))
  {
    SoundMonotone(s.files, s.remote, remote, map[]);
    ReadsRightByPath(s.files, s.remote, s.blobs);
    ReadsRightByPath(s.files, remote, s.blobs);
    forall p | p in s.files
      ensures EntryServed(remote, s.blobs, p, s.files[p])
    {
      assert EntryServed(s.remote, s.blobs, p, s.files[p]);
      forall i: nat | i < |s.files[p].chunks|
        ensures Fetch(remote, s.files[p].chunks[i]) == Fetch(s.remote, s.files[p].chunks[i])
      {
        assert EntryReadable(s.remote, s.files[p]);
        FetchGrows(s.remote, remote, s.files[p], i);
      }
    }
    forall id | id in s.readers
      ensures ReaderRight(remote, s.readers[id])
    {
      ReaderGrows(s.remote, remote, s.readers[id]);
    }
  }

  lemma DropKeepsRight(s: State, fewer: Blobs)
    requires AllRight(s) && forall k :: k in fewer ==> k in s.blobs && fewer[k] == s.blobs[k]
    ensures AllRight(s.(blobs := fewer))
  {
    DropKeepsReads(s.files, s.remote, s.blobs, fewer);
  }

  // ---------------------------------------------------------------- all histories

  /** A step keeps all reads right, new ones and those under way, exactly when its condition holds. */
  lemma StepKeepsRightIff(s: State, op: Op)
    requires AllRight(s) && Enabled(s, op)
    ensures AllRight(Apply(s, op)) <==> Harmless(s, op)
  {
    hide AllRight;
    match op {
      case Open(id, p, first) => OpenKeepsRight(s, id, p, first);
      case Hit(id) => HitKeepsRightIff(s, id);
      case HitBlob(id) => HitBlobKeepsRightIff(s, id);
      case FetchNext(id) => FetchKeepsRight(s, id);
      case Put(id) => PutKeepsRightIff(s, id);
      case PutWhole(id) => PutWholeKeepsRightIff(s, id);
      case CarryPut(id) => CarryPutKeepsRightIff(s, id);
      case Evict(keep) => DropKeepsRight(s, Apply(s, op).blobs);
      case Clear(p) => DropKeepsRight(s, Apply(s, op).blobs);
      case Remove(p) => RemoveKeepsRight(s, p);
      case Move(from, to, now) => MoveKeepsRightIff(s, from, to, now);
      case Store(p, e, now) => StoreKeepsRightIff(s, p, e, now);
      case Crash(saved) => CrashKeepsRightIff(s, saved);
      case Post(remote) => PostKeepsRight(s, remote);
      case Close(id) => CloseKeepsRight(s, id);
      case CarryTake(id, from, to) => CarryTakeKeepsRight(s, id, from, to);
    }
  }

  lemma CloseKeepsRight(s: State, id: nat)
    requires AllRight(s) && Enabled(s, Close(id))
    ensures AllRight(Apply(s, Close(id)))
  {
    hide ReaderRight, Readable, ReadsRight;
  }

  lemma CarryTakeKeepsRight(s: State, id: nat, from: string, to: string)
    requires AllRight(s) && Enabled(s, CarryTake(id, from, to))
    ensures AllRight(Apply(s, CarryTake(id, from, to)))
  {
  }

  ghost predicate Step(s: State, op: Op, s': State) {
    Enabled(s, op) && s' == Apply(s, op)
  }

  ghost predicate IsHistory(states: seq<State>, ops: seq<Op>) {
    && |states| == |ops| + 1
    && forall k {:trigger ops[k]} :: 0 <= k < |ops| ==> Step(states[k], ops[k], states[k + 1])
  }

  /**
   In any interleaving, at every moment all reads are right, those that would begin and those that are under way,
   exactly when every step met its condition.
   */
  lemma RightThroughoutIff(states: seq<State>, ops: seq<Op>)
    requires IsHistory(states, ops) && AllRight(states[0])
    ensures (forall k {:trigger states[k]} :: 0 <= k < |states| ==> AllRight(states[k]))
            <==> (forall k {:trigger ops[k]} :: 0 <= k < |ops| ==> Harmless(states[k], ops[k]))
  {
    if forall k {:trigger ops[k]} :: 0 <= k < |ops| ==> Harmless(states[k], ops[k]) {
      forall k | 0 <= k < |states|
        ensures AllRight(states[k])
      {
        RightAt(states, ops, k);
      }
    }
    if forall k {:trigger states[k]} :: 0 <= k < |states| ==> AllRight(states[k]) {
      forall k {:trigger ops[k]} | 0 <= k < |ops|
        ensures Harmless(states[k], ops[k])
      {
        assert states[k + 1] == Apply(states[k], ops[k]);
        StepKeepsRightIff(states[k], ops[k]);
      }
    }
  }

  lemma {:induction false} RightAt(states: seq<State>, ops: seq<Op>, k: nat)
    requires IsHistory(states, ops) && AllRight(states[0]) && k < |states|
    requires forall j {:trigger ops[j]} :: 0 <= j < |ops| ==> Harmless(states[j], ops[j])
    ensures AllRight(states[k])
  {
    if k != 0 {
      RightAt(states, ops, k - 1);
      assert Harmless(states[k - 1], ops[k - 1]);
      StepKeepsRightIff(states[k - 1], ops[k - 1]);
    }
  }

  /** A run of chunks decodes to the stretch of the file between their offsets. */
  lemma {:induction false} DecodedStretch(remote: Remote, chunks: seq<ChunkFile>, data: Bytes, first: nat, next: nat)
    requires Holds(remote, chunks, data) && first <= next <= |chunks|
    ensures 0 <= Offset(chunks, first) <= Offset(chunks, next) <= |data|
    ensures Decode(remote, chunks[first..next]) == Ok(data[Offset(chunks, first)..Offset(chunks, next)])
  {
    HoldsPrefix(remote, chunks, data, first);
    if first < next {
      DecodedStretch(remote, chunks, data, first, next - 1);
      HoldsAt(remote, chunks, data, next - 1);
      var lo, mid, hi := Offset(chunks, first), Offset(chunks, next - 1), Offset(chunks, next);
      DecodeOneMore(remote, chunks, first, next - 1, data[lo..mid], data[mid..hi]);
      assert data[lo..mid] + data[mid..hi] == data[lo..hi];
    } else {
      assert chunks[first..next] == [] && data[Offset(chunks, first)..Offset(chunks, next)] == [];
    }
  }

  /**
   What a read returns, at any moment of any interleaving in which every step met its condition: exactly the stretch of
   the file that it has looked up, up to where it is; all of it once it has passed all chunks.
   */
  lemma WhatReadsReturn(states: seq<State>, ops: seq<Op>, k: nat, id: nat)
    requires IsHistory(states, ops) && AllRight(states[0]) && k < |states| && id in states[k].readers
    requires forall j {:trigger ops[j]} :: 0 <= j < |ops| ==> Harmless(states[j], ops[j])
    ensures var r, remote := states[k].readers[id], states[k].remote;
            var text := Text(remote, r.entry);
            && r.first <= r.next <= |r.entry.chunks|
            && 0 <= Offset(r.entry.chunks, r.first) <= Offset(r.entry.chunks, r.next) <= |text|
            && r.got == text[Offset(r.entry.chunks, r.first)..Offset(r.entry.chunks, r.next)]
            && (r.first == 0 && r.next == |r.entry.chunks| ==> r.got == text)
            && (r.blob.Some? ==> Agree(r.blob.value, text))
  {
    RightAt(states, ops, k);
    var r, remote := states[k].readers[id], states[k].remote;
    assert ReaderRight(remote, r);
    DecodedStretch(remote, r.entry.chunks, Text(remote, r.entry), r.first, r.next);
    if r.first == 0 && r.next == |r.entry.chunks| {
      WholeGot(remote, r);
    }
  }

  /** Every read under way has looked its entry up at some moment, and messages have only been added since. */
  lemma {:induction false} LookedUpAt(states: seq<State>, ops: seq<Op>, k: nat, id: nat) returns (j: nat)
    requires IsHistory(states, ops) && states[0].readers == map[] && k < |states| && id in states[k].readers
    ensures j <= k && Grows(states[j].remote, states[k].remote)
    ensures var r := states[k].readers[id]; r.path in states[j].files && states[j].files[r.path] == r.entry
  {
    var s, op := states[k - 1], ops[k - 1];
    assert Step(s, op, states[k]);
    if op.Open? && op.id == id {
      j := k - 1;
    } else {
      SameLookUp(s, op, id);
      j := LookedUpAt(states, ops, k - 1, id);
    }
  }

  lemma SameLookUp(s: State, op: Op, id: nat)
    requires Enabled(s, op) && id in Apply(s, op).readers && !(op.Open? && op.id == id)
    ensures id in s.readers && Apply(s, op).readers[id].path == s.readers[id].path
    ensures Apply(s, op).readers[id].entry == s.readers[id].entry && Grows(s.remote, Apply(s, op).remote)
  {
  }

  /**
   Reads are snapshots: whatever changes while a read is under way, if every step met its condition it returns, up to
   where it is, the file that was stored at its path at one moment of the run.
   */
  lemma ReadsAreSnapshots(states: seq<State>, ops: seq<Op>, k: nat, id: nat) returns (j: nat)
    requires IsHistory(states, ops) && AllRight(states[0]) && states[0].readers == map[]
    requires forall i {:trigger ops[i]} :: 0 <= i < |ops| ==> Harmless(states[i], ops[i])
    requires k < |states| && id in states[k].readers
    ensures j <= k && states[k].readers[id].path in states[j].files
    ensures var r, e := states[k].readers[id], states[j].files[states[k].readers[id].path];
            var text := Text(states[j].remote, e);
            && r.first <= r.next <= |e.chunks|
            && 0 <= Offset(e.chunks, r.first) <= Offset(e.chunks, r.next) <= |text|
            && r.got == text[Offset(e.chunks, r.first)..Offset(e.chunks, r.next)]
            && (r.first == 0 && r.next == |e.chunks| ==> r.got == text)
            && (r.blob.Some? ==> Agree(r.blob.value, text))
  {
    j := LookedUpAt(states, ops, k, id);
    RightAt(states, ops, j);
    SoundMonotone(states[j].files, states[j].remote, states[k].remote, map[]);
    WhatReadsReturn(states, ops, k, id);
  }

  // ---------------------------------------------------------------- caches that reads build

  /** Nothing is cached and nobody reads. */
  function Cold(files: Files, remote: Remote): State {
    State(files, remote, map[], map[], map[])
  }

  lemma HistoryBefore(s: State, op: Op, states: seq<State>, ops: seq<Op>)
    requires IsHistory(states, ops) && Step(s, op, states[0])
    ensures IsHistory([s] + states, [op] + ops)
  {
    hide Step;
    assert forall k {:trigger ([op] + ops)[k]} :: 1 <= k <= |ops| ==> ([op] + ops)[k] == ops[k - 1];
  }

  lemma HistoryAfter(states: seq<State>, ops: seq<Op>, op: Op, s: State)
    requires IsHistory(states, ops) && Step(states[|ops|], op, s)
    ensures IsHistory(states + [s], ops + [op])
  {
    hide Step;
  }

  lemma ReadOne(s: State, p: string, data: Bytes) returns (s1: State, s2: State)
    requires Ready(s, 0) && s.readers[0].path == p
    requires Fetch(s.remote, s.readers[0].entry.chunks[s.readers[0].next]) == Ok(data)
    ensures Step(s, FetchNext(0), s1) && Step(s1, Put(0), s2)
    ensures var r := s.readers[0];
            s2 == s.(blobs := s2.blobs, readers := s.readers[0 := r.(next := r.next + 1, got := r.got + data)])
  {
    s1 := Apply(s, FetchNext(0));
    s2 := Apply(s1, Put(0));
  }

  /** A read alone fetches and caches the rest of its chunks, and ends up with all of the file. */
  lemma {:induction false} ReadToEnd(s: State, p: string) returns (states: seq<State>, ops: seq<Op>)
    requires 0 in s.readers && s.readers[0].path == p && s.readers[0].first == 0 && s.readers[0].held.None?
    requires var r := s.readers[0];
             r.next <= |r.entry.chunks| && EntryReadable(s.remote, r.entry)
             && Decode(s.remote, r.entry.chunks[0..r.next]) == Ok(r.got)
    ensures IsHistory(states, ops) && states[0] == s
    ensures states[|ops|] == s.(blobs := states[|ops|].blobs, readers := states[|ops|].readers)
    ensures var r := s.readers[0];
            states[|ops|].readers == s.readers[0 := r.(next := |r.entry.chunks|, got := Text(s.remote, r.entry))]
    decreases |s.readers[0].entry.chunks| - s.readers[0].next
  {
    var r := s.readers[0];
    ReadableDecodes(s.remote, r.entry);
    if r.next == |r.entry.chunks| {
      assert r.entry.chunks[0..r.next] == r.entry.chunks;
      states, ops := [s], [];
    } else {
      ChunkIsNotEmpty(s.remote, r.entry, r.next);
      var data := Fetch(s.remote, r.entry.chunks[r.next]).value;
      DecodeOneMore(s.remote, r.entry.chunks, 0, r.next, r.got, data);
      var s1, s2 := ReadOne(s, p, data);
      hide Step, Decode;
      var states', ops' := ReadToEnd(s2, p);
      HistoryBefore(s1, Put(0), states', ops');
      HistoryBefore(s, FetchNext(0), [s1] + states', [Put(0)] + ops');
      states, ops := [s] + ([s1] + states'), [FetchNext(0)] + ([Put(0)] + ops');
      assert states[|ops|] == states'[|ops'|];
    }
  }

  /** The last state of a history is the cold one with just one blob cached. */
  ghost predicate ReachesBlob(states: seq<State>, ops: seq<Op>, files: Files, remote: Remote, key: string, data: Bytes) {
    IsHistory(states, ops) && states[0] == Cold(files, remote) && states[|ops|] == Cold(files, remote).(blobs := map[key := data])
  }

  lemma ChunkIsReachable(files: Files, remote: Remote, p: string, i: nat)
    requires p in files && !files[p].isFolder && i < |files[p].chunks| && Fetch(remote, files[p].chunks[i]).Ok?
    ensures exists states, ops :: ReachesBlob(states, ops, files, remote, ChunkKey(p, i), Fetch(remote, files[p].chunks[i]).value)
  {
    var s := Cold(files, remote);
    var data := Fetch(remote, files[p].chunks[i]).value;
    var s1 := Apply(s, Open(0, p, i));
    var s2 := Apply(s1, FetchNext(0));
    var s3 := Apply(s2, Put(0));
    var s4 := Apply(s3, Close(0));
    assert s4.blobs == map[ChunkKey(p, i) := data];
    assert s4 == s.(blobs := map[ChunkKey(p, i) := data]);
    FourSteps(s, s1, s2, s3, s4, Open(0, p, i), FetchNext(0), Put(0), Close(0), files, remote, ChunkKey(p, i), data);
  }

  lemma FourSteps(s: State, s1: State, s2: State, s3: State, s4: State, a: Op, b: Op, c: Op, d: Op,
                  files: Files, remote: Remote, key: string, data: Bytes)
    requires Step(s, a, s1) && Step(s1, b, s2) && Step(s2, c, s3) && Step(s3, d, s4)
    requires s == Cold(files, remote) && s4 == s.(blobs := map[key := data])
    ensures exists states, ops :: ReachesBlob(states, ops, files, remote, key, data)
  {
    hide Step;
    assert ReachesBlob([s, s1, s2, s3, s4], [a, b, c, d], files, remote, key, data);
  }

  lemma WholeIsReachable(files: Files, remote: Remote, p: string)
    requires Readable(files, remote) && p in files && !files[p].isFolder
    requires 0 < |Text(remote, files[p])| <= MAX_FULL_FILE_RAM_BUFFER
    ensures exists states, ops :: ReachesBlob(states, ops, files, remote, p, Text(remote, files[p]))
  {
    var e := files[p];
    assert EntryReadable(remote, e);
    ReadableDecodes(remote, e);
    var s := Cold(files, remote);
    var s1 := Apply(s, Open(0, p, 0));
    assert e.chunks[0..0] == [];
    var states, ops := ReadToEnd(s1, p);
    HistoryBefore(s, Open(0, p, 0), states, ops);
    states, ops := [s] + states, [Open(0, p, 0)] + ops;
    KeepOnlyWhole(files, remote, p, states, ops);
  }

  lemma KeepOnlyWhole(files: Files, remote: Remote, p: string, states: seq<State>, ops: seq<Op>)
    requires IsHistory(states, ops) && states[0] == Cold(files, remote) && p in files && EntryReadable(remote, files[p])
    requires 0 < |Text(remote, files[p])| <= MAX_FULL_FILE_RAM_BUFFER
    requires states[|ops|].files == files && states[|ops|].remote == remote && states[|ops|].carriers == map[]
    requires states[|ops|].readers == map[0 := Reader(p, files[p], 0, |files[p].chunks|, Text(remote, files[p]), None, None)]
    ensures exists states', ops' :: ReachesBlob(states', ops', files, remote, p, Text(remote, files[p]))
  {
    var s := states[|ops|];
    var s1 := Apply(s, PutWhole(0));
    var s2 := Apply(s1, Close(0));
    var s3 := Apply(s2, Evict({p}));
    HistoryAfter(states, ops, PutWhole(0), s1);
    HistoryAfter(states + [s1], ops + [PutWhole(0)], Close(0), s2);
    HistoryAfter(states + [s1] + [s2], ops + [PutWhole(0)] + [Close(0)], Evict({p}), s3);
    assert s3.blobs == map[p := Text(remote, files[p])];
    assert ReachesBlob(states + [s1] + [s2] + [s3], ops + [PutWhole(0)] + [Close(0)] + [Evict({p})], files, remote, p, Text(remote, files[p]));
  }

  /** Each blob that reads are said to build is indeed cached, alone, at the end of some run of reads from a cold cache. */
  lemma BuiltKeysAreReachable(files: Files, remote: Remote, key: string, data: Bytes)
    requires Readable(files, remote) && BuiltKey(files, remote, key, data)
    ensures exists states, ops :: ReachesBlob(states, ops, files, remote, key, data)
  {
    if p, i: nat :| p in files && !files[p].isFolder && i < |files[p].chunks| && key == ChunkKey(p, i)
                    && Fetch(remote, files[p].chunks[i]) == Ok(data) {
      ChunkIsReachable(files, remote, p, i);
    } else {
      WholeIsReachable(files, remote, key);
    }
  }

  // ---------------------------------------------------------------- runs that mislead reads

  /** The last state of a run serves chunk 0 of `p` as it was in the first, although the stored file has another. */
  ghost predicate ServesOldChunk(states: seq<State>, ops: seq<Op>, p: string) {
    && IsHistory(states, ops)
    && p in states[0].files && states[0].files[p].chunks != []
    && var s, s' := states[0], states[|ops|];
       && p in s'.files && s'.files[p].chunks != []
       && ServedChunk(s'.files, s'.remote, s'.blobs, p, 0) == Fetch(s.remote, s.files[p].chunks[0])
          != Fetch(s'.remote, s'.files[p].chunks[0])
  }

  /** From `s` the steps can lead to a state that serves an old chunk. */
  ghost predicate CanServeOldChunk(s: State, ops: seq<Op>, p: string) {
    exists states :: states != [] && states[0] == s && ServesOldChunk(states, ops, p)
  }

  /** A read is possible, and another file may be stored at its path. */
  ghost predicate CanBeReplaced(s: State, p: string, e: FileEntry) {
    && AllRight(s) && 0 !in s.readers && p in s.files && !s.files[p].isFolder && s.files[p].chunks != []
    && !e.isFolder && e.chunks != [] && EntryReadable(s.remote, e)
    && Fetch(s.remote, e.chunks[0]) != Fetch(s.remote, s.files[p].chunks[0])
  }

  lemma SixSteps(s: State, s1: State, s2: State, s3: State, s4: State, s5: State, s6: State,
                 a: Op, b: Op, c: Op, d: Op, e: Op, f: Op, p: string)
    requires Step(s, a, s1) && Step(s1, b, s2) && Step(s2, c, s3) && Step(s3, d, s4) && Step(s4, e, s5) && Step(s5, f, s6)
    requires p in s.files && s.files[p].chunks != [] && p in s6.files && s6.files[p].chunks != []
    requires ServedChunk(s6.files, s6.remote, s6.blobs, p, 0) == Fetch(s.remote, s.files[p].chunks[0])
             != Fetch(s6.remote, s6.files[p].chunks[0])
    ensures CanServeOldChunk(s, [a, b, c, d, e, f], p)
  {
    hide Step, ServedChunk, Fetch;
    assert ServesOldChunk([s, s1, s2, s3, s4, s5, s6], [a, b, c, d, e, f], p);
  }

  lemma FirstChunkFetches(s: State, p: string)
    requires Readable(s.files, s.remote) && p in s.files && s.files[p].chunks != []
    ensures Fetch(s.remote, s.files[p].chunks[0]).Ok? && Fetch(s.remote, s.files[p].chunks[0]).value != []
  {
    assert EntryReadable(s.remote, s.files[p]);
    ChunkIsNotEmpty(s.remote, s.files[p], 0);
  }

  /** A read looks `p` up and fetches its first chunk. */
  lemma OpenAndFetch(s: State, p: string) returns (s1: State, s2: State)
    requires Readable(s.files, s.remote) && 0 !in s.readers && p in s.files && !s.files[p].isFolder && s.files[p].chunks != []
    ensures Fetch(s.remote, s.files[p].chunks[0]).Ok? && Fetch(s.remote, s.files[p].chunks[0]).value != []
    ensures Step(s, Open(0, p, 0), s1) && Step(s1, FetchNext(0), s2)
    ensures s2 == s.(readers := s.readers[0 := Reader(p, s.files[p], 0, 0, [], Some(Fetch(s.remote, s.files[p].chunks[0]).value), None)])
  {
    FirstChunkFetches(s, p);
    s1 := Apply(s, Open(0, p, 0));
    s2 := Apply(s1, FetchNext(0));
  }

  lemma PutHeld(s: State, p: string, data: Bytes) returns (s': State)
    requires 0 in s.readers && s.readers[0].path == p && s.readers[0].next == 0 && s.readers[0].held == Some(data)
    requires s.readers[0].entry.chunks != []
    ensures Step(s, Put(0), s')
    ensures s'.files == s.files && s'.remote == s.remote && s'.blobs == s.blobs[ChunkKey(p, 0) := data]
  {
    s' := Apply(s, Put(0));
  }

  lemma ClearOnly(s: State, p: string) returns (s': State)
    ensures Step(s, Clear(p), s') && s' == s.(blobs := s'.blobs)
  {
    s' := Apply(s, Clear(p));
  }

  lemma RemoveOnly(s: State, p: string) returns (s': State)
    ensures Step(s, Remove(p), s') && s' == s.(files := s'.files)
  {
    s' := Apply(s, Remove(p));
  }

  lemma MoveOnly(s: State, p: string, to: string, now: int) returns (s': State)
    requires p in s.files && Unrelated(p, to) && FreeName(s.files, to)
    ensures Step(s, Move(p, to, now), s') && s' == s.(files := s'.files)
  {
    s' := Apply(s, Move(p, to, now));
  }

  /** Another file is stored at `p` while a chunk is cached for it. */
  lemma StoreMisleads(s: State, p: string, e: FileEntry, now: int, data: Bytes) returns (s': State)
    requires EntryReadable(s.remote, e) && e.chunks != [] && Fetch(s.remote, e.chunks[0]) != Ok(data) && data != []
    requires ChunkKey(p, 0) in s.blobs && s.blobs[ChunkKey(p, 0)] == data
    ensures Step(s, Store(p, e, now), s')
    ensures p in s'.files && s'.files[p].chunks != []
    ensures ServedChunk(s'.files, s'.remote, s'.blobs, p, 0) == Ok(data) != Fetch(s'.remote, s'.files[p].chunks[0])
  {
    s' := Apply(s, Store(p, e, now));
    assert s'.files[p] == e;
  }

  /** A read that is in flight across a delete caches its chunk afterwards, and the next upload to the path reads as the old file. */
  lemma ReadAcrossDeleteMisleads(s: State, p: string, e: FileEntry, now: int)
    requires CanBeReplaced(s, p, e)
    ensures CanServeOldChunk(s, [Open(0, p, 0), FetchNext(0), Clear(p), Remove(p), Put(0), Store(p, e, now)], p)
  {
    FirstChunkFetches(s, p);
    var data := Fetch(s.remote, s.files[p].chunks[0]).value;
    assert 0 !in s.readers && EntryReadable(s.remote, e) && Readable(s.files, s.remote);
    hide *;
    var s1, s2 := OpenAndFetch(s, p);
    var s3 := ClearOnly(s2, p);
    var s4 := RemoveOnly(s3, p);
    var s5 := PutHeld(s4, p, data);
    var s6 := StoreMisleads(s5, p, e, now, data);
    SixSteps(s, s1, s2, s3, s4, s5, s6, Open(0, p, 0), FetchNext(0), Clear(p), Remove(p), Put(0), Store(p, e, now), p);
  }

  /** So does a read that falls between the two halves of a delete. */
  lemma ReadWithinDeleteMisleads(s: State, p: string, e: FileEntry, now: int)
    requires CanBeReplaced(s, p, e)
    ensures CanServeOldChunk(s, [Clear(p), Open(0, p, 0), FetchNext(0), Put(0), Remove(p), Store(p, e, now)], p)
  {
    FirstChunkFetches(s, p);
    var data := Fetch(s.remote, s.files[p].chunks[0]).value;
    assert 0 !in s.readers && EntryReadable(s.remote, e) && Readable(s.files, s.remote);
    hide *;
    var s1 := ClearOnly(s, p);
    var s2, s3 := OpenAndFetch(s1, p);
    var s4 := PutHeld(s3, p, data);
    var s5 := RemoveOnly(s4, p);
    var s6 := StoreMisleads(s5, p, e, now, data);
    SixSteps(s, s1, s2, s3, s4, s5, s6, Clear(p), Open(0, p, 0), FetchNext(0), Put(0), Remove(p), Store(p, e, now), p);
  }

  /** And a read that is in flight across a rename, for the next upload to the old name. */
  lemma ReadAcrossRenameMisleads(s: State, p: string, to: string, e: FileEntry, now: int)
    requires CanBeReplaced(s, p, e) && Unrelated(p, to) && FreeName(s.files, to)
    ensures CanServeOldChunk(s, [Open(0, p, 0), FetchNext(0), Clear(p), Move(p, to, now), Put(0), Store(p, e, now)], p)
  {
    FirstChunkFetches(s, p);
    var data := Fetch(s.remote, s.files[p].chunks[0]).value;
    assert 0 !in s.readers && EntryReadable(s.remote, e) && Readable(s.files, s.remote);
    hide *;
    var s1, s2 := OpenAndFetch(s, p);
    var s3 := ClearOnly(s2, p);
    var s4 := MoveOnly(s3, p, to, now);
    var s5 := PutHeld(s4, p, data);
    var s6 := StoreMisleads(s5, p, e, now, data);
    SixSteps(s, s1, s2, s3, s4, s5, s6, Open(0, p, 0), FetchNext(0), Clear(p), Move(p, to, now), Put(0), Store(p, e, now), p);
  }

  // ---------------------------------------------------------------- a read that mixes two files

  /** `p` holds a file of at least two chunks, and another one, with another second chunk, may be stored there. */
  ghost predicate CanBeMixed(s: State, p: string, e: FileEntry) {
    && AllRight(s) && 0 !in s.readers && 1 !in s.readers
    && p in s.files && !s.files[p].isFolder && 2 <= |s.files[p].chunks|
    && ChunkKey(p, 0) !in s.files && ChunkKey(p, 1) !in s.files
    && !e.isFolder && 2 <= |e.chunks| && EntryReadable(s.remote, e)
    && Fetch(s.remote, e.chunks[1]) != Fetch(s.remote, s.files[p].chunks[1])
  }

  /** A read of chunk `i` alone. */
  function ReadingOne(id: nat, p: string, i: nat): seq<Op> {
    [Open(id, p, i), FetchNext(id), Put(id)]
  }

  /** A delete and an upload. */
  function Replacing(p: string, e: FileEntry, now: int): seq<Op> {
    [Clear(p), Remove(p), Store(p, e, now)]
  }

  /** The steps lead from `s` to `s'`, and everything is right at every moment. */
  ghost predicate LeadsRightly(s: State, ops: seq<Op>, s': State) {
    exists states :: IsHistory(states, ops) && states[0] == s && states[|ops|] == s' && RightInAll(states)
  }

  ghost predicate RightInAll(states: seq<State>) {
    forall k {:trigger states[k]} :: 0 <= k < |states| ==> AllRight(states[k])
  }

  lemma ThreeSteps(s: State, s1: State, s2: State, s3: State, a: Op, b: Op, c: Op)
    requires Step(s, a, s1) && Step(s1, b, s2) && Step(s2, c, s3)
    requires AllRight(s) && AllRight(s1) && AllRight(s2) && AllRight(s3)
    ensures LeadsRightly(s, [a, b, c], s3)
  {
    hide Step, AllRight;
    var states := [s, s1, s2, s3];
    assert IsHistory(states, [a, b, c]) && RightInAll(states);
  }

  lemma StepsThenSteps(s: State, ops: seq<Op>, s': State, ops': seq<Op>, s'': State)
    requires LeadsRightly(s, ops, s') && LeadsRightly(s', ops', s'')
    ensures LeadsRightly(s, ops + ops', s'')
  {
    hide Step, AllRight;
    var first :| IsHistory(first, ops) && first[0] == s && first[|ops|] == s' && RightInAll(first);
    var second :| IsHistory(second, ops') && second[0] == s' && second[|ops'|] == s'' && RightInAll(second);
    var all, allOps := first + second[1..], ops + ops';
    forall k {:trigger allOps[k]} | 0 <= k < |allOps|
      ensures Step(all[k], allOps[k], all[k + 1])
    {
      if k < |ops| {
        assert Step(first[k], ops[k], first[k + 1]);
      } else {
        assert Step(second[k - |ops|], ops'[k - |ops|], second[k - |ops| + 1]);
      }
    }
    assert IsHistory(all, allOps) && RightInAll(all);
  }

  /** Only the records of one path are stored under its chunk keys. */
  lemma OwnRecordOnly(files: Files, p: string, i: nat)
    requires p in files && i < |files[p].chunks|
    ensures RecordsAre(files, ChunkKey(p, i), files[p].chunks[i].hash)
  {
    forall q, j: nat | q in files && j < |files[q].chunks| && ChunkKey(p, i) == ChunkKey(q, j)
      ensures files[q].chunks[j].hash == files[p].chunks[i].hash
    {
      ChunkKeyInjective(p, i, q, j);
    }
  }

  lemma OpenOne(s: State, id: nat, p: string, i: nat) returns (s': State)
    requires AllRight(s) && id !in s.readers && p in s.files && !s.files[p].isFolder && i < |s.files[p].chunks|
    ensures Step(s, Open(id, p, i), s') && AllRight(s')
    ensures s' == s.(readers := s.readers[id := Reader(p, s.files[p], i, i, [], None, None)])
  {
    s' := Apply(s, Open(id, p, i));
    hide AllRight;
    StepKeepsRightIff(s, Open(id, p, i));
  }

  lemma FetchOne(s: State, id: nat, p: string, e: FileEntry, i: nat, data: Bytes) returns (s': State)
    requires AllRight(s) && id in s.readers && s.readers[id] == Reader(p, e, i, i, [], None, None)
    requires i < |e.chunks| && Fetch(s.remote, e.chunks[i]) == Ok(data)
    ensures Step(s, FetchNext(id), s') && AllRight(s')
    ensures s' == s.(readers := s.readers[id := Reader(p, e, i, i, [], Some(data), None)])
  {
    s' := Apply(s, FetchNext(id));
    hide AllRight;
    StepKeepsRightIff(s, FetchNext(id));
  }

  lemma PutOne(s: State, id: nat, p: string, i: nat, data: Bytes) returns (s': State)
    requires AllRight(s) && p in s.files && i < |s.files[p].chunks| && ChunkKey(p, i) !in s.files
    requires id in s.readers && s.readers[id] == Reader(p, s.files[p], i, i, [], Some(data), None)
    ensures Step(s, Put(id), s') && AllRight(s')
    ensures s' == s.(blobs := s.blobs[ChunkKey(p, i) := data], readers := s.readers[id := Reader(p, s.files[p], i, i + 1, data, None, None)])
  {
    s' := Apply(s, Put(id));
    assert [] + data == data;
    PutOneIsHarmless(s, id, p, i, data);
    hide AllRight, Harmless;
    PutKeepsRightIff(s, id);
  }

  lemma PutOneIsHarmless(s: State, id: nat, p: string, i: nat, data: Bytes)
    requires p in s.files && i < |s.files[p].chunks| && ChunkKey(p, i) !in s.files
    requires id in s.readers && s.readers[id] == Reader(p, s.files[p], i, i, [], Some(data), None)
    ensures Enabled(s, Put(id)) && Harmless(s, Put(id))
  {
    OwnRecordOnly(s.files, p, i);
  }

  /** A read of chunk `i` of what is stored, alone: everything is right before, in between and after. */
  lemma TakeOneChunk(s: State, id: nat, p: string, i: nat, data: Bytes) returns (s': State)
    requires AllRight(s) && id !in s.readers && p in s.files && !s.files[p].isFolder && i < |s.files[p].chunks|
    requires ChunkKey(p, i) !in s.files && Fetch(s.remote, s.files[p].chunks[i]) == Ok(data)
    ensures LeadsRightly(s, ReadingOne(id, p, i), s') && AllRight(s')
    ensures s' == s.(blobs := s.blobs[ChunkKey(p, i) := data], readers := s.readers[id := Reader(p, s.files[p], i, i + 1, data, None, None)])
  {
    assert ReadingOne(id, p, i) == [Open(id, p, i), FetchNext(id), Put(id)];
    hide *;
    var s1 := OpenOne(s, id, p, i);
    var s2 := FetchOne(s1, id, p, s.files[p], i, data);
    s' := PutOne(s2, id, p, i, data);
    ThreeSteps(s, s1, s2, s', Open(id, p, i), FetchNext(id), Put(id));
    var r1 := Reader(p, s.files[p], i, i, [], None, None);
    var r2 := Reader(p, s.files[p], i, i, [], Some(data), None);
    var r3 := Reader(p, s.files[p], i, i + 1, data, None, None);
    LastReader(s.readers, id, r1, r2, r3);
  }

  lemma LastReader(readers: map<nat, Reader>, id: nat, r1: Reader, r2: Reader, r3: Reader)
    ensures readers[id := r1][id := r2][id := r3] == readers[id := r3]
  {
  }

  /** A delete and a new upload, with nobody in between: right throughout. */
  lemma ReplaceFile(s: State, p: string, e: FileEntry, now: int) returns (s': State)
    requires AllRight(s) && p in s.files && EntryReadable(s.remote, e)
    ensures LeadsRightly(s, Replacing(p, e, now), s') && AllRight(s')
    ensures s'.remote == s.remote && s'.readers == s.readers && p in s'.files && s'.files[p] == e
    ensures forall k :: k in s'.files && |p| < |k| ==> k in s.files
  {
    NothingClearedFits(s.remote, s.blobs, p, e);
    var s1 := Apply(s, Clear(p));
    assert AllRight(s1) by {
      StepKeepsRightIff(s, Clear(p));
    }
    var s2 := Apply(s1, Remove(p));
    assert AllRight(s2) by {
      RemoveKeepsRight(s1, p);
    }
    s' := StoreOver(s2, p, e, now);
    hide AllRight, EntryFits, EntryReadable;
    ThreeSteps(s, s1, s2, s', Clear(p), Remove(p), Store(p, e, now));
  }

  lemma StoreOver(s: State, p: string, e: FileEntry, now: int) returns (s': State)
    requires AllRight(s) && EntryReadable(s.remote, e) && EntryFits(s.remote, s.blobs, p, e)
    ensures Step(s, Store(p, e, now), s') && AllRight(s')
    ensures s' == s.(files := s'.files) && p in s'.files && s'.files[p] == e
    ensures forall k :: k in s'.files && |p| < |k| ==> k in s.files
  {
    s' := Apply(s, Store(p, e, now));
    StoreKeepsRightIff(s, p, e, now);
    AncestorsAreShorter(p);
  }

  lemma NothingClearedFits(remote: Remote, blobs: Blobs, p: string, e: FileEntry)
    ensures EntryFits(remote, Cleared(blobs, p), p, e)
  {
    forall i: nat | i < |e.chunks|
      ensures ChunkKey(p, i) !in Cleared(blobs, p)
    {
      OwnedAreCleared(p, p, ChunkKey(p, i));
    }
  }

  lemma AncestorsAreShorter(p: string)
    ensures forall d :: d in Ancestors(p) ==> |d| < |p|
  {
    AncestorsAreUnder(p);
    forall d | d in Ancestors(p)
      ensures |d| < |p|
    {
      UnderIndex(d, p);
    }
  }

  /** The next chunk of the read is cached, and is not the one that its entry asks for. */
  ghost predicate HitMisleads(s: State, id: nat) {
    Enabled(s, Hit(id)) && !Harmless(s, Hit(id))
  }

  /**
   Reads are right at every moment of a first read that stops after a chunk, a delete, an upload of another file and
   a second read. Then the first read goes on. What is cached is still right for what is stored, and yet that read ends
   up with a chunk of the old file followed by a chunk of the new one.
   */
  lemma ReadMixesTwoFiles(s: State, p: string, e: FileEntry, now: int) returns (before: State, after: State)
    requires CanBeMixed(s, p, e)
    ensures LeadsRightly(s, ReadingOne(0, p, 0) + Replacing(p, e, now) + ReadingOne(1, p, 1), before)
    ensures Step(before, Hit(0), after) && HitMisleads(before, 0) && ReadsRight(after.files, after.remote, after.blobs)
    ensures Fetch(s.remote, s.files[p].chunks[0]).Ok? && Fetch(s.remote, e.chunks[1]).Ok?
    ensures 0 in after.readers
            && after.readers[0] == Reader(p, s.files[p], 0, 2,
                 Fetch(s.remote, s.files[p].chunks[0]).value + Fetch(s.remote, e.chunks[1]).value, None, None)
  {
    MixedChunks(s, p, e);
    var a, b := Fetch(s.remote, s.files[p].chunks[0]).value, Fetch(s.remote, e.chunks[1]).value;
    hide *;
    var middle := ReadThenReplace(s, p, e, now, a);
    before := TakeOneChunk(middle, 1, p, 1, b);
    StepsThenSteps(s, ReadingOne(0, p, 0) + Replacing(p, e, now), middle, ReadingOne(1, p, 1), before);
    after := HitOther(before, p, e, s.files[p], a, b);
  }

  /** The first read takes its first chunk, and the file is replaced. */
  lemma ReadThenReplace(s: State, p: string, e: FileEntry, now: int, a: Bytes) returns (s': State)
    requires AllRight(s) && 0 !in s.readers && p in s.files && !s.files[p].isFolder && s.files[p].chunks != []
    requires ChunkKey(p, 0) !in s.files && ChunkKey(p, 1) !in s.files
    requires Fetch(s.remote, s.files[p].chunks[0]) == Ok(a) && EntryReadable(s.remote, e)
    ensures LeadsRightly(s, ReadingOne(0, p, 0) + Replacing(p, e, now), s') && AllRight(s')
    ensures s'.remote == s.remote && s'.readers == s.readers[0 := Reader(p, s.files[p], 0, 1, a, None, None)]
    ensures p in s'.files && s'.files[p] == e && ChunkKey(p, 1) !in s'.files
  {
    hide *;
    var s1 := TakeOneChunk(s, 0, p, 0, a);
    s' := ReplaceFile(s1, p, e, now);
    ChunkKeyIsLonger(p, 1);
    StepsThenSteps(s, ReadingOne(0, p, 0), s1, Replacing(p, e, now), s');
  }

  lemma ChunkKeyIsLonger(p: string, i: nat)
    ensures |p| < |ChunkKey(p, i)|
  {
  }

  lemma MixedChunks(s: State, p: string, e: FileEntry)
    requires CanBeMixed(s, p, e)
    ensures AllRight(s) && 0 !in s.readers && 1 !in s.readers && EntryReadable(s.remote, e) && !e.isFolder
    ensures p in s.files && !s.files[p].isFolder && 2 <= |s.files[p].chunks| && 2 <= |e.chunks|
    ensures ChunkKey(p, 0) !in s.files && ChunkKey(p, 1) !in s.files
    ensures Fetch(s.remote, s.files[p].chunks[0]).Ok? && Fetch(s.remote, e.chunks[1]).Ok?
    ensures Fetch(s.remote, e.chunks[1]) != Fetch(s.remote, s.files[p].chunks[1])
  {
    assert EntryReadable(s.remote, s.files[p]);
    ChunkIsNotEmpty(s.remote, s.files[p], 0);
    ChunkIsNotEmpty(s.remote, e, 1);
  }

  /** The first read goes on, and is given a chunk of the new file. */
  lemma HitOther(s: State, p: string, e: FileEntry, stale: FileEntry, a: Bytes, b: Bytes) returns (s': State)
    requires AllRight(s) && 0 in s.readers && s.readers[0] == Reader(p, stale, 0, 1, a, None, None)
    requires 2 <= |stale.chunks| && 2 <= |e.chunks| && EntryReadable(s.remote, e)
    requires ChunkKey(p, 1) in s.blobs && s.blobs[ChunkKey(p, 1)] == b && Fetch(s.remote, e.chunks[1]) == Ok(b)
    requires Fetch(s.remote, e.chunks[1]) != Fetch(s.remote, stale.chunks[1])
    ensures Step(s, Hit(0), s') && HitMisleads(s, 0)
    ensures s' == s.(readers := s.readers[0 := Reader(p, stale, 0, 2, a + b, None, None)])
    ensures ReadsRight(s'.files, s'.remote, s'.blobs)
  {
    ChunkIsNotEmpty(s.remote, e, 1);
    assert ReaderRight(s.remote, s.readers[0]);
    DigestTellsChunk(s.remote, stale, 1, b);
    s' := Apply(s, Hit(0));
  }

  // ---------------------------------------------------------------- a concrete input

  function FourMessages(): Remote {
    map[MessageRef(1, 1) := Raw([1]), MessageRef(1, 2) := Raw([2]), MessageRef(1, 3) := Raw([3]), MessageRef(1, 4) := Raw([4])]
  }

  /** The one-byte message `id`, as a chunk. */
  function OneByteChunk(id: byte): ChunkFile {
    ChunkFile(1, id as int, 1, "", ChunkHash([id]))
  }

  /** A file of two bytes, stored as two messages. */
  function TwoByteFile(a: byte, b: byte): FileEntry {
    FileEntry([OneByteChunk(a), OneByteChunk(b)], 0, "", false, false)
  }

  lemma TwoByteFileReads(a: byte, b: byte)
    requires 1 <= a <= 4 && 1 <= b <= 4
    ensures EntryReadable(FourMessages(), TwoByteFile(a, b)) && Text(FourMessages(), TwoByteFile(a, b)) == [a, b]
    ensures Fetch(FourMessages(), OneByteChunk(a)) == Ok([a]) && Fetch(FourMessages(), OneByteChunk(b)) == Ok([b])
  {
    var remote, chunks := FourMessages(), [OneByteChunk(a), OneByteChunk(b)];
    assert Fetch(remote, OneByteChunk(a)) == Ok([a]) && Fetch(remote, OneByteChunk(b)) == Ok([b]);
    assert chunks[..1] == [OneByteChunk(a)] && chunks[..1][..0] == [];
    assert Decode(remote, chunks[..1]) == Ok([] + [a]);
    assert Decode(remote, chunks) == Ok([] + [a] + [b]);
    assert [] + [a] + [b] == [a, b];
    HoldsIffDecodes(remote, chunks, [a, b]);
  }

  /** "a" holds 1 and 2, and then 3 and 4: a read of all of it gives 1 and 4. */
  lemma ReadMixesOneAndFour() returns (before: State, after: State)
    ensures LeadsRightly(Cold(map["a" := TwoByteFile(1, 2)], FourMessages()),
                         ReadingOne(0, "a", 0) + Replacing("a", TwoByteFile(3, 4), 0) + ReadingOne(1, "a", 1), before)
    ensures Step(before, Hit(0), after)
    ensures Text(FourMessages(), TwoByteFile(1, 2)) == [1, 2] && Text(FourMessages(), TwoByteFile(3, 4)) == [3, 4]
    ensures 0 in after.readers && after.readers[0] == Reader("a", TwoByteFile(1, 2), 0, 2, [1, 4], None, None)
  {
    TwoByteFileReads(1, 2);
    TwoByteFileReads(3, 4);
    var s := Cold(map["a" := TwoByteFile(1, 2)], FourMessages());
    ChunkKeyIsLonger("a", 0);
    ChunkKeyIsLonger("a", 1);
    ReadsRightByKey(s.files, s.remote, s.blobs);
    assert CanBeMixed(s, "a", TwoByteFile(3, 4));
    hide *;
    before, after := ReadMixesTwoFiles(s, "a", TwoByteFile(3, 4), 0);
    assert [1] + [4] == [1, 4];
  }
}
