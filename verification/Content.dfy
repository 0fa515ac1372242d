/**
 What a stored file is made of: chunk records, the messages they point to, and how a list of
 chunk records decodes to bytes.

 Encryption is symbolic: a sealed message opens with the password it was sealed with and with no
 other. The digest is an injective function to non-empty strings.
 */
module Content {

  newtype byte = x: int | 0 <= x < 256

  type Bytes = seq<byte>

  datatype Option<+T> = None | Some(value: T)

  datatype Error =
    | NotFound
    | IsAFolder
    | InvalidRange
    | EndOfFile
    | MessageUnavailable
    | DecryptFailed
    | HashMismatch
    | NoChunks
    | StillUploading
    | ConnectFailed
    /** Not an error of the code: the call never returns, because it waits for the bandwidth limiter for ever. */
    | WaitsForEver

  datatype Result<+T> = Ok(value: T) | Err(error: Error)

  datatype MessageRef = MessageRef(chatId: int, messageId: int)

  /** A message is either a sealed chunk or an unencrypted payload. */
  datatype Message = Sealed(password: string, plaintext: Bytes) | Raw(data: Bytes)

  type Remote = map<MessageRef, Message>

  /** One uploaded piece of a file; `size` is the plaintext size. */
  datatype ChunkFile = ChunkFile(chatId: int, messageId: int, size: int, password: string, hash: string)
  {
    function Ref(): MessageRef {
      MessageRef(chatId, messageId)
    }
  }

  /** The zero value that fills a freshly made slice of chunk records. */
  const BLANK_CHUNK := ChunkFile(0, 0, 0, "", "")

  datatype FileEntry = FileEntry(
    chunks: seq<ChunkFile>,
    date: int,
    fileHash: string,
    isFolder: bool,
    incomplete: bool)

  function FolderMarker(now: int): FileEntry {
    FileEntry([], now, "", true, false)
  }

  // ---------------------------------------------------------------- digests

  function AsText(data: Bytes): string {
    seq(|data|, i requires 0 <= i < |data| => data[i] as int as char)
  }

  function Digest(text: string): string {
    "#" + text
  }

  /** Hex digest of a chunk's plaintext. */
  function ChunkHash(data: Bytes): string {
    Digest(AsText(data))
  }

  function JoinHashes(chunks: seq<ChunkFile>): string {
    if chunks == [] then "" else JoinHashes(chunks[..|chunks| - 1]) + chunks[|chunks| - 1].hash
  }

  function HashChunkHashes(chunks: seq<ChunkFile>): string {
    Digest(JoinHashes(chunks))
  }

  /** The chunk digest tells different plaintexts apart and is never empty. */
  lemma ChunkHashInjective(a: Bytes, b: Bytes)
    ensures ChunkHash(a) != ""
    ensures ChunkHash(a) == ChunkHash(b) <==> a == b
  {
    if ChunkHash(a) == ChunkHash(b) {
      assert ChunkHash(a)[1..] == AsText(a) && ChunkHash(b)[1..] == AsText(b);
      forall i | 0 <= i < |a|
        ensures a[i] == b[i]
      {
        assert AsText(a)[i] == AsText(b)[i];
        CharOfByteInjective(a[i], b[i]);
      }
      assert a == b;
    }
  }

  lemma CharOfByteInjective(x: byte, y: byte)
    requires x as int as char == y as int as char
    ensures x == y
  {
    assert x as int as char as int == x as int;
    assert y as int as char as int == y as int;
  }

  /** Digests of one length: the file hash tells two lists of them apart. */
  lemma {:induction false} FileHashTellsChunks(a: seq<ChunkFile>, b: seq<ChunkFile>, length: nat)
    requires 0 < length && (forall i :: 0 <= i < |a| ==> |a[i].hash| == length) && (forall i :: 0 <= i < |b| ==> |b[i].hash| == length)
    ensures HashChunkHashes(a) == HashChunkHashes(b) <==> |a| == |b| && forall i :: 0 <= i < |a| ==> a[i].hash == b[i].hash
  {
    if HashChunkHashes(a) == HashChunkHashes(b) {
      assert HashChunkHashes(a)[1..] == JoinHashes(a) && HashChunkHashes(b)[1..] == JoinHashes(b);
      JoinTellsApart(a, b, length);
    }
    if |a| == |b| && forall i :: 0 <= i < |a| ==> a[i].hash == b[i].hash {
      SameHashesJoin(a, b);
    }
  }

  lemma {:induction false} SameHashesJoin(a: seq<ChunkFile>, b: seq<ChunkFile>)
    requires |a| == |b| && forall i :: 0 <= i < |a| ==> a[i].hash == b[i].hash
    ensures JoinHashes(a) == JoinHashes(b)
  {
    if a != [] {
      SameHashesJoin(a[..|a| - 1], b[..|b| - 1]);
    }
  }

  lemma {:induction false} JoinTellsApart(a: seq<ChunkFile>, b: seq<ChunkFile>, length: nat)
    requires 0 < length && (forall i :: 0 <= i < |a| ==> |a[i].hash| == length) && (forall i :: 0 <= i < |b| ==> |b[i].hash| == length)
    requires JoinHashes(a) == JoinHashes(b)
    ensures |a| == |b| && forall i :: 0 <= i < |a| ==> a[i].hash == b[i].hash
  {
    if a != [] && b != [] {
      var m, n := |a| - 1, |b| - 1;
      var all := JoinHashes(a);
      var cut := |all| - length;
      assert all[cut..] == a[m].hash && all[..cut] == JoinHashes(a[..m]);
      assert all[cut..] == b[n].hash && all[..cut] == JoinHashes(b[..n]);
      JoinTellsApart(a[..m], b[..n], length);
      forall i | 0 <= i < |a|
        ensures a[i].hash == b[i].hash
      {
        if i < m {
          assert a[..m][i].hash == b[..n][i].hash;
        }
      }
    }
  }

  // ---------------------------------------------------------------- fetching one chunk

  /** Find the message, open it, and compare the digest when the record carries one. */
  function Fetch(remote: Remote, ch: ChunkFile): Result<Bytes> {
    if ch.Ref() !in remote then
      Err(MessageUnavailable)
    else
      var payload := Open(remote[ch.Ref()], ch.password);
      if payload.Ok? && ch.hash != "" && ChunkHash(payload.value) != ch.hash then Err(HashMismatch)
      else payload
  }

  /** With a password the message must be sealed with that password; without one it is taken as it is. */
  function Open(message: Message, password: string): Result<Bytes> {
    match message
    case Sealed(p, plaintext) => if password != "" && p == password then Ok(plaintext) else Err(DecryptFailed)
    case Raw(data) => if password == "" then Ok(data) else Err(DecryptFailed)
  }

  /**
   Fetching gives some bytes exactly when the message is there, is one that the password opens to these bytes, and they
   have the recorded digest, if any.
   */
  lemma FetchesIff(remote: Remote, ch: ChunkFile, data: Bytes)
    ensures Fetch(remote, ch) == Ok(data) <==>
            && MessageRef(ch.chatId, ch.messageId) in remote
            && remote[MessageRef(ch.chatId, ch.messageId)] == (if ch.password == "" then Raw(data) else Sealed(ch.password, data))
            && (ch.hash == "" || ch.hash == ChunkHash(data))
  {
  }

  /** What the record's digest guarantees: a chunk that fetches is the chunk that was hashed. */
  lemma FetchedBytesMatchHash(remote: Remote, ch: ChunkFile, data: Bytes)
    requires ch.hash == ChunkHash(data)
    requires Fetch(remote, ch).Ok?
    ensures Fetch(remote, ch).value == data
  {
    ChunkHashInjective(Fetch(remote, ch).value, data);
  }

  // ---------------------------------------------------------------- chunk lists

  /** Sum of the sizes of the first `k` chunks, which is where chunk `k` starts. */
  function Offset(chunks: seq<ChunkFile>, k: nat): int
    requires k <= |chunks|
  {
    if k == 0 then 0 else Offset(chunks, k - 1) + chunks[k - 1].size
  }

  function TotalSize(chunks: seq<ChunkFile>): int {
    Offset(chunks, |chunks|)
  }

  /** `ch` is a non-empty chunk holding exactly `data[from..from + ch.size]`. */
  ghost predicate ChunkHolds(remote: Remote, ch: ChunkFile, data: Bytes, from: int) {
    && 0 < ch.size
    && ch.hash != ""
    && 0 <= from <= from + ch.size <= |data|
    && Fetch(remote, ch) == Ok(data[from..from + ch.size])
  }

  /** Chunk `i` holds the bytes that its place in the list says it holds. */
  ghost predicate HoldsChunk(remote: Remote, chunks: seq<ChunkFile>, data: Bytes, i: nat)
    requires i < |chunks|
  {
    ChunkHolds(remote, chunks[i], data, Offset(chunks, i))
  }

  /** The chunks, laid end to end by their recorded sizes, hold exactly `data`. */
  ghost predicate Holds(remote: Remote, chunks: seq<ChunkFile>, data: Bytes) {
    && TotalSize(chunks) == |data|
    && forall i: nat {:trigger HoldsChunk(remote, chunks, data, i)} :: i < |chunks| ==> HoldsChunk(remote, chunks, data, i)
  }

  /** The reference reading of a chunk list: fetch every chunk and concatenate. */
  function Decode(remote: Remote, chunks: seq<ChunkFile>): Result<Bytes> {
    if chunks == [] then Ok([])
    else
      var init := Decode(remote, chunks[..|chunks| - 1]);
      if init.Err? then init
      else
        var last := Fetch(remote, chunks[|chunks| - 1]);
        if last.Err? then last else Ok(init.value + last.value)
  }

  lemma {:induction false} OffsetOfPrefix(chunks: seq<ChunkFile>, chunks': seq<ChunkFile>, k: nat)
    requires k <= |chunks| && k <= |chunks'| && chunks[..k] == chunks'[..k]
    ensures Offset(chunks, k) == Offset(chunks', k)
  {
    if k != 0 {
      assert chunks[k - 1] == chunks[..k][k - 1] == chunks'[k - 1];
      assert chunks[..k - 1] == chunks[..k][..k - 1] == chunks'[..k - 1];
      OffsetOfPrefix(chunks, chunks', k - 1);
    }
  }

  /** A chunk that lies inside `data[..n]` does not care what comes after. */
  lemma ChunkHoldsInPrefix(remote: Remote, ch: ChunkFile, data: Bytes, n: nat, from: int)
    requires n <= |data| && from + ch.size <= n
    ensures ChunkHolds(remote, ch, data, from) <==> ChunkHolds(remote, ch, data[..n], from)
  {
    if 0 < ch.size && 0 <= from {
      assert data[..n][from..from + ch.size] == data[from..from + ch.size];
    }
  }

  lemma HoldsAt(remote: Remote, chunks: seq<ChunkFile>, data: Bytes, i: nat)
    requires Holds(remote, chunks, data) && i < |chunks|
    ensures ChunkHolds(remote, chunks[i], data, Offset(chunks, i))
    ensures 0 <= Offset(chunks, i) < Offset(chunks, i + 1) <= |data|
  {
    assert HoldsChunk(remote, chunks, data, i);
  }

  /** A prefix of a good chunk list holds the corresponding prefix of the data. */
  lemma HoldsPrefix(remote: Remote, chunks: seq<ChunkFile>, data: Bytes, k: nat)
    requires Holds(remote, chunks, data) && k <= |chunks|
    ensures 0 <= Offset(chunks, k) <= |data|
    ensures Holds(remote, chunks[..k], data[..Offset(chunks, k)])
  {
    if k != 0 {
      HoldsAt(remote, chunks, data, k - 1);
    }
    var cut := Offset(chunks, k);
    OffsetOfPrefix(chunks, chunks[..k], k);
    forall i: nat | i < k
      ensures HoldsChunk(remote, chunks[..k], data[..cut], i)
    {
      HoldsPrefixAt(remote, chunks, data, k, i);
    }
  }

  lemma HoldsPrefixAt(remote: Remote, chunks: seq<ChunkFile>, data: Bytes, k: nat, i: nat)
    requires Holds(remote, chunks, data) && i < k <= |chunks|
    requires 0 <= Offset(chunks, k) <= |data|
    ensures ChunkHolds(remote, chunks[i], data[..Offset(chunks, k)], Offset(chunks[..k], i))
  {
    assert chunks[..k][..i] == chunks[..i];
    OffsetOfPrefix(chunks, chunks[..k], i);
    HoldsAt(remote, chunks, data, i);
    HoldsOffsetMonotone(remote, chunks, data, i + 1, k);
    ChunkHoldsInPrefix(remote, chunks[i], data, Offset(chunks, k), Offset(chunks, i));
  }

  lemma {:induction false} HoldsOffsetMonotone(remote: Remote, chunks: seq<ChunkFile>, data: Bytes, i: nat, j: nat)
    requires Holds(remote, chunks, data) && i <= j <= |chunks|
    ensures Offset(chunks, i) <= Offset(chunks, j)
  {
    if i < j {
      HoldsAt(remote, chunks, data, j - 1);
      HoldsOffsetMonotone(remote, chunks, data, i, j - 1);
    }
  }

  /** Appending one good chunk extends the data by its bytes. */
  lemma HoldsAppend(remote: Remote, chunks: seq<ChunkFile>, ch: ChunkFile, data: Bytes)
    requires 0 <= TotalSize(chunks) <= |data|
    requires Holds(remote, chunks, data[..TotalSize(chunks)])
    requires ChunkHolds(remote, ch, data, TotalSize(chunks))
    ensures TotalSize(chunks + [ch]) == TotalSize(chunks) + ch.size
    ensures Holds(remote, chunks + [ch], data[..TotalSize(chunks) + ch.size])
  {
    var all := chunks + [ch];
    var total := TotalSize(chunks);
    assert all[..|chunks|] == chunks[..|chunks|];
    OffsetOfPrefix(chunks, all, |chunks|);
    var longer := data[..total + ch.size];
    forall i: nat {:trigger HoldsChunk(remote, all, longer, i)} | i < |all|
      ensures HoldsChunk(remote, all, longer, i)
    {
      if i == |chunks| {
        ChunkHoldsInPrefix(remote, ch, data, total + ch.size, total);
      } else {
        HoldsAppendAt(remote, chunks, all, data, total, total + ch.size, i);
      }
    }
  }

  lemma HoldsAppendAt(remote: Remote, chunks: seq<ChunkFile>, all: seq<ChunkFile>, data: Bytes, m: nat, n: nat, i: nat)
    requires m <= n <= |data| && i < |chunks| <= |all| && chunks == all[..|chunks|]
    requires Holds(remote, chunks, data[..m])
    ensures HoldsChunk(remote, all, data[..n], i)
  {
    assert all[..i] == chunks[..i];
    OffsetOfPrefix(chunks, all, i);
    HoldsAt(remote, chunks, data[..m], i);
    ChunkHoldsInPrefix(remote, chunks[i], data, m, Offset(chunks, i));
    ChunkHoldsInPrefix(remote, chunks[i], data, n, Offset(chunks, i));
  }

  /** The messages are append-only, so chunks that decode today decode to the same bytes later. */
  lemma HoldsMonotone(remote: Remote, remote': Remote, chunks: seq<ChunkFile>, data: Bytes)
    requires Holds(remote, chunks, data)
    requires Grows(remote, remote')
    ensures Holds(remote', chunks, data)
  {
    forall i: nat | i < |chunks|
      ensures HoldsChunk(remote', chunks, data, i)
    {
      HoldsAt(remote, chunks, data, i);
    }
  }

  ghost predicate Grows(remote: Remote, remote': Remote) {
    forall r :: r in remote ==> r in remote' && remote'[r] == remote[r]
  }

  /** The recorded size is the real one and the chunk carries a digest. */
  ghost predicate SizeRight(remote: Remote, ch: ChunkFile) {
    && 0 < ch.size
    && ch.hash != ""
    && Fetch(remote, ch).Ok?
    && |Fetch(remote, ch).value| == ch.size
  }

  ghost predicate SizesRight(remote: Remote, chunks: seq<ChunkFile>) {
    forall i :: 0 <= i < |chunks| ==> SizeRight(remote, chunks[i])
  }

  /** Offset arithmetic over recorded sizes agrees with concatenating what is fetched. */
  lemma {:induction false} HoldsIffDecodes(remote: Remote, chunks: seq<ChunkFile>, data: Bytes)
    ensures Holds(remote, chunks, data) <==> SizesRight(remote, chunks) && Decode(remote, chunks) == Ok(data)
  {
    if Holds(remote, chunks, data) {
      HoldsDecodes(remote, chunks, data);
    }
    if SizesRight(remote, chunks) && Decode(remote, chunks) == Ok(data) {
      DecodesHolds(remote, chunks, data);
    }
  }

  lemma {:induction false} HoldsDecodes(remote: Remote, chunks: seq<ChunkFile>, data: Bytes)
    requires Holds(remote, chunks, data)
    ensures SizesRight(remote, chunks)
    ensures Decode(remote, chunks) == Ok(data)
  {
    if chunks == [] {
      assert data == [];
    } else {
      var n := |chunks| - 1;
      var from := Offset(chunks, n);
      HoldsPrefix(remote, chunks, data, n);
      HoldsAt(remote, chunks, data, n);
      HoldsDecodes(remote, chunks[..n], data[..from]);
      forall i | 0 <= i < |chunks|
        ensures SizeRight(remote, chunks[i])
      {
        assert i < n ==> chunks[..n][i] == chunks[i];
      }
      assert data == data[..from] + data[from..from + chunks[n].size];
    }
  }

  lemma {:induction false} DecodesHolds(remote: Remote, chunks: seq<ChunkFile>, data: Bytes)
    requires SizesRight(remote, chunks)
    requires Decode(remote, chunks) == Ok(data)
    ensures Holds(remote, chunks, data)
  {
    if chunks != [] {
      var n := |chunks| - 1;
      var last := chunks[n];
      assert SizeRight(remote, last);
      var init := Decode(remote, chunks[..n]).value;
      forall i | 0 <= i < n
        ensures SizeRight(remote, chunks[..n][i])
      {
        assert chunks[..n][i] == chunks[i];
      }
      DecodesHolds(remote, chunks[..n], init);
      DecodesHoldsLast(remote, chunks, data, init);
    }
  }

  lemma DecodesHoldsLast(remote: Remote, chunks: seq<ChunkFile>, data: Bytes, init: Bytes)
    requires chunks != [] && SizeRight(remote, chunks[|chunks| - 1])
    requires Holds(remote, chunks[..|chunks| - 1], init)
    requires data == init + Fetch(remote, chunks[|chunks| - 1]).value
    ensures Holds(remote, chunks, data)
  {
    var n := |chunks| - 1;
    var last := chunks[n];
    var from := |init|;
    assert data[..from] == init;
    assert data[from..from + last.size] == Fetch(remote, last).value;
    assert chunks == chunks[..n] + [last];
    HoldsAppend(remote, chunks[..n], last, data);
    assert data[..from + last.size] == data;
  }

  // ---------------------------------------------------------------- new messages

  /** There is always room for another message in a chat. */
  lemma {:induction false} FreshId(chatId: int, refs: set<MessageRef>) returns (id: int)
    ensures forall r :: r in refs ==> r.messageId < id
    ensures MessageRef(chatId, id) !in refs
  {
    if refs == {} {
      id := 0;
    } else {
      var r :| r in refs;
      var below := FreshId(chatId, refs - {r});
      id := if below <= r.messageId then r.messageId + 1 else below;
    }
  }
}
