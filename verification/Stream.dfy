/** The sequential reader over `ReadAt` that the streaming server hands to HTTP. */
module Stream {
  import opened Content
  import opened FileSystems
  import opened RateLimit
  import opened CachedReads

  datatype Whence = SeekStart | SeekCurrent | SeekEnd | SeekOther

  /** What is left of the data from an offset on; nothing past the end. */
  function Rest(data: Bytes, offset: nat): Bytes {
    if offset <= |data| then data[offset..] else []
  }

  /** One buffer, then the rest after it; a short one is the last. */
  lemma ClipThenRest(data: Bytes, offset: nat, length: nat)
    requires 0 < length
    ensures var n := |Clip(data, offset, length)|;
            && Clip(data, offset, length) + Rest(data, offset + n) == Rest(data, offset)
            && n <= length
            && (n < length ==> Rest(data, offset + n) == [])
            && (n == length ==> offset + n <= |data|)
  {
  }

  lemma Regroup(a: Bytes, b: Bytes, c: Bytes)
    ensures a + (b + c) == (a + b) + c
  {
  }

  /** A read fails because of some chunk: its message cannot be reached, or the limiter never lets it through. */
  ghost predicate SomeChunkFails(error: Error, chunks: seq<ChunkFile>, online: set<MessageRef>, limitKBps: int) {
    || (error == MessageUnavailable && exists i: nat :: i < |chunks| && chunks[i].Ref() !in online)
    || (error == WaitsForEver && exists i: nat :: i < |chunks| && !LetsThrough(limitKBps, chunks[i].size))
  }

  lemma FailingChunk(error: Error, chunks: seq<ChunkFile>, offset: int, length: int, online: set<MessageRef>, limitKBps: int)
    requires RangeFails(error, chunks, offset, length, online, limitKBps)
             || (error == WaitsForEver && exists n :: RangeBlocked(chunks, 0, n, limitKBps))
    ensures SomeChunkFails(error, chunks, online, limitKBps)
  {
  }

  class StreamReadSeeker {
    const fs: FileSystem
    const path: string
    const size: int
    var offset: int

    constructor (fs: FileSystem, path: string)
      requires fs.Valid() && path in fs.db.files && !fs.db.files[path].isFolder
      ensures Valid() && this.fs == fs && this.path == path && offset == 0
    {
      this.fs, this.path := fs, path;
      this.size := TotalSize(fs.db.files[path].chunks);
      this.offset := 0;
      new;
      fs.FileHolds(path);
    }

    /** The file is stored, its size has not changed, and the position is not negative. */
    ghost predicate Valid()
      reads this, fs, fs.db, fs.cache
    {
      && fs.Valid()
      && path in fs.db.files && !fs.db.files[path].isFolder
      && size == |fs.TextOf(path)|
      && 0 <= offset
    }

    /** Read from the current position and advance by what was read. */
    method Read(buf: array<byte>, now: int, online: set<MessageRef>) returns (n: nat, err: Option<Error>)
      requires Valid()
      modifies this`offset, fs.cache, buf
      ensures Valid()
      ensures offset == old(offset) + n && n <= buf.Length && buf[n..] == old(buf[n..])
      ensures buf.Length == 0 ==> n == 0 && err == None
      ensures 0 < buf.Length ==>
                if err.None? || err == Some(EndOfFile) then
                  && buf[..n] == Clip(fs.TextOf(path), old(offset), buf.Length)
                  && (err == Some(EndOfFile) <==> n < buf.Length)
                else
                  n == 0 && fs.ReadFails(err.value, path, old(offset), buf.Length, online)
      ensures fs.limitKBps <= 0 ==> err != Some(WaitsForEver)
    {
      n, err := fs.ReadAt(path, buf, offset, now, online);
      offset := offset + n;
    }

    /** Move the position; an unknown origin or a negative target is refused and moves nothing. */
    method Seek(delta: int, whence: Whence) returns (pos: Option<int>)
      requires Valid()
      modifies this`offset
      ensures Valid()
      ensures var target := match whence
                case SeekStart => Some(delta)
                case SeekCurrent => Some(old(offset) + delta)
                case SeekEnd => Some(|fs.TextOf(path)| + delta)
                case SeekOther => None;
              if target.Some? && 0 <= target.value then pos == target && offset == target.value
              else pos == None && offset == old(offset)
    {
      var newOff;
      match whence {
        case SeekStart => newOff := delta;
        case SeekCurrent => newOff := offset + delta;
        case SeekEnd => newOff := size + delta;
        case SeekOther => return None;
      }
      if newOff < 0 {
        return None;
      }
      offset := newOff;
      return Some(offset);
    }

    /**
     The loop of every consumer: read buffer after buffer until an error. It ends, and if it ends with the
     end of the file it has produced exactly the rest of the file.
     */
    method ReadAll(bufSize: nat, now: int, online: set<MessageRef>) returns (data: Bytes, err: Error)
      requires Valid() && 0 < bufSize
      modifies this`offset, fs.cache
      ensures Valid()
      ensures err == EndOfFile ==> data == Rest(fs.TextOf(path), old(offset))
      ensures err != EndOfFile ==> SomeChunkFails(err, fs.db.files[path].chunks, online, fs.limitKBps)
      ensures data + Rest(fs.TextOf(path), offset) == Rest(fs.TextOf(path), old(offset))
      ensures err == EndOfFile ==> data == if old(offset) <= size then fs.TextOf(path)[old(offset)..] else []
      ensures fs.limitKBps <= 0 ==> err != WaitsForEver
    {
      data := [];
      ghost var text := fs.TextOf(path);
      assert Rest(text, offset) == if offset <= size then text[offset..] else [];
      hide *;
      var buf := new byte[bufSize];
      while true
        invariant Valid() && text == fs.TextOf(path) && 0 <= offset
        invariant data + Rest(text, offset) == Rest(text, old(offset))
        decreases if offset <= size then size - offset + 1 else 0
      {
        var piece, e := NextPiece(buf, now, online);
        assert fs.TextOf(path) == text;
        Regroup(data, piece, Rest(text, offset));
        data := data + piece;
        if e.Some? {
          err := e.value;
          return;
        }
      }
    }

    /** One turn of the loop: some more of the file, or its end, or an error. */
    method NextPiece(buf: array<byte>, now: int, online: set<MessageRef>) returns (piece: Bytes, err: Option<Error>)
      requires Valid() && 0 < buf.Length
      modifies this`offset, fs.cache, buf
      ensures Valid()
      ensures 0 <= offset
      ensures piece + Rest(fs.TextOf(path), offset) == Rest(fs.TextOf(path), old(offset))
      ensures err.None? ==> old(offset) < offset <= size
      ensures err == Some(EndOfFile) ==> Rest(fs.TextOf(path), offset) == []
      ensures err.Some? && err != Some(EndOfFile) ==> SomeChunkFails(err.value, fs.db.files[path].chunks, online, fs.limitKBps)
      ensures fs.limitKBps <= 0 ==> err != Some(WaitsForEver)
    {
      ghost var start, text := offset, fs.TextOf(path);
      ClipThenRest(text, start, buf.Length);
      hide FileSystem.Valid, FileSystem.TextOf, Clip, Rest, RangeFails;
      var n;
      n, err := Read(buf, now, online);
      assert fs.TextOf(path) == text;
      piece := if err.None? || err == Some(EndOfFile) then buf[..n] else [];
      if err.Some? && err != Some(EndOfFile) {
        FailingChunk(err.value, fs.db.files[path].chunks, start, buf.Length, online, fs.limitKBps);
      }
    }
  }
}
