/** What one call of `write` or `writeStr` does to the media and the buffer:
    the byte-at-a-time copy loop with its full-buffer flushes is the bulk
    split of the buffered bytes plus the new ones into whole chunks and a rest. */
module WriteProofs {
  import opened BufferTypes
  import opened Chunking
  import opened BufferModel

  /** The copy loop makes one media call per whole chunk of (buffered bytes ++
      src), in order and on the attached file, keeps the rest buffered, and
      reports the last of those calls' codes, or `code` if it made none. */
  lemma {:induction false} WriteFromChunks(s: State, src: seq<byte>, media: Media, code: uint32)
    requires WellFormed(s) && s.cursor < BufferSize && s.file.Some?
    ensures LoopOutcome(s, src, media, code)
    decreases |src|
  {
    if src == [] {
      assert Pending(s) + src == Pending(s);
      ShortStream(Pending(s));
    } else {
      var s1 := AppendByte(s, src[0]);
      assert Pending(s) + src == Pending(s1) + src[1..];
      if s1.cursor >= BufferSize {
        var fl := Flush(s1, media);
        WriteFromChunks(fl.s, src[1..], media, fl.code);
        FlushedByteStep(s, src, media, code);
      } else {
        WriteFromChunks(s1, src[1..], media, code);
      }
    }
  }

  /** The conclusion of WriteFromChunks, for one starting point of the copy loop. */
  ghost predicate LoopOutcome(s: State, src: seq<byte>, media: Media, code: uint32)
    requires WellFormed(s) && s.cursor < BufferSize && s.file.Some?
  {
    var r := WriteFrom(s, src, media, code);
    var all := Pending(s) + src;
    && r.s.log == s.log + Calls(s.file.value, Chunks(all))
    && Pending(r.s) == Rest(all)
    && r.code == (if Chunks(all) == [] then code else media(r.s.log))
  }

  /** The step of WriteFromChunks where the first byte fills the buffer: the
      flush it triggers sends the first whole chunk. */
  lemma FlushedByteStep(s: State, src: seq<byte>, media: Media, code: uint32)
    requires WellFormed(s) && s.cursor < BufferSize && s.file.Some? && src != []
    requires AppendByte(s, src[0]).cursor >= BufferSize
    requires var fl := Flush(AppendByte(s, src[0]), media);
             LoopOutcome(fl.s, src[1..], media, fl.code)
    ensures LoopOutcome(s, src, media, code)
  {
    var f := s.file.value;
    var s1 := AppendByte(s, src[0]);
    var fl := Flush(s1, media);
    var r := WriteFrom(fl.s, src[1..], media, fl.code);
    var all := Pending(s) + src;
    var chunk := Pending(s1);
    FlushedByteUnfold(s, src, media, code);
    assert fl.s.log == s.log + [MediaCall(f, chunk)] && Pending(fl.s) == [];
    assert all == chunk + src[1..];
    assert Pending(fl.s) + src[1..] == src[1..];
    assert r.s.log == fl.s.log + Calls(f, Chunks(src[1..]));
    assert Pending(r.s) == Rest(src[1..]);
    FullChunkFirst(chunk, src[1..]);
    LogStep(s.log, f, chunk, Chunks(src[1..]), r.s.log);
  }

  /** Unfolding the copy loop once when the first byte fills the buffer. */
  lemma FlushedByteUnfold(s: State, src: seq<byte>, media: Media, code: uint32)
    requires WellFormed(s) && s.cursor < BufferSize && s.file.Some? && src != []
    requires AppendByte(s, src[0]).cursor >= BufferSize
    ensures var fl := Flush(AppendByte(s, src[0]), media);
            WriteFrom(s, src, media, code) == WriteFrom(fl.s, src[1..], media, fl.code)
  {
  }

  /** Appending the calls of one chunk and then of the remaining chunks is
      appending the calls of all the chunks. */
  lemma LogStep(log: seq<MediaCall>, f: FileId, chunk: seq<byte>, rest: seq<seq<byte>>,
                out: seq<MediaCall>)
    requires out == (log + [MediaCall(f, chunk)]) + Calls(f, rest)
    ensures out == log + Calls(f, [chunk] + rest)
    ensures rest == [] ==> out == log + [MediaCall(f, chunk)]
  {
    CallsCons(f, chunk, rest);
    calc {
      out;
      == (log + [MediaCall(f, chunk)]) + Calls(f, rest);
      == log + ([MediaCall(f, chunk)] + Calls(f, rest));
      == log + Calls(f, [chunk] + rest);
    }
    if rest == [] {
      assert Calls(f, rest) == [];
      assert out == (log + [MediaCall(f, chunk)]) + [];
    }
  }

  /** Calls of a chunk put in front of others. */
  lemma CallsCons(f: FileId, chunk: seq<byte>, rest: seq<seq<byte>>)
    ensures Calls(f, [chunk] + rest) == [MediaCall(f, chunk)] + Calls(f, rest)
  {
    var cs := [chunk] + rest;
    assert cs != [] && cs[0] == chunk && cs[1..] == rest;
  }

  /** `write` with a file attached: the media calls it makes, concatenated,
      followed by what it leaves buffered, are exactly the bytes that were
      buffered before followed by `src` (byte-exact, NUL bytes included). Each
      call carries a full buffer of BufferSize bytes on the attached file. */
  lemma WriteRoundTrip(s: State, src: seq<byte>, media: Media)
    requires Valid(s) && s.file.Some?
    ensures var r := Write(s, src, media);
            && r.s.log[..|s.log|] == s.log
            && Sent(r.s.log[|s.log|..]) + Pending(r.s) == Pending(s) + src
            && (forall i :: |s.log| <= i < |r.s.log| ==>
                  r.s.log[i].file == s.file.value && |r.s.log[i].data| == BufferSize)
  {
    var r := Write(s, src, media);
    var all := Pending(s) + src;
    WriteFromChunks(s, src, media, 0);
    var added := Calls(s.file.value, Chunks(all));
    assert r.s.log == s.log + added;
    assert r.s.log[..|s.log|] == s.log;
    assert r.s.log[|s.log|..] == added;
    SentCalls(s.file.value, Chunks(all));
    ChunksRestSplit(all);
    CallsAt(s.file.value, Chunks(all));
    ChunksFull(all);
    forall i | |s.log| <= i < |r.s.log|
      ensures r.s.log[i].file == s.file.value && |r.s.log[i].data| == BufferSize
    {
      assert r.s.log[i] == added[i - |s.log|];
    }
  }

  /** `write` with a file attached, starting at cursor c with n bytes: exactly
      (c + n) / BufferSize media calls, the cursor ends at (c + n) % BufferSize,
      and the total grows by n whatever the media calls returned. */
  lemma WriteCounts(s: State, src: seq<byte>, media: Media)
    requires Valid(s) && s.file.Some?
    ensures var r := Write(s, src, media);
            && |r.s.log| == |s.log| + (BufferCount(s) + |src|) / BufferSize
            && BufferCount(r.s) == (BufferCount(s) + |src|) % BufferSize
            && GetBytesWrittenTotal(r.s) == GetBytesWrittenTotal(s) + |src|
  {
    var all := Pending(s) + src;
    WriteFromChunks(s, src, media, 0);
    ChunksCount(all);
  }

  /** `write` reports 0 when it flushed nothing, and otherwise the code of its
      last internal flush, which is the last media call made (so a later
      success hides an earlier failure). */
  lemma WriteReturnCode(s: State, src: seq<byte>, media: Media)
    requires Valid(s) && s.file.Some?
    ensures var r := Write(s, src, media);
            && (BufferCount(s) + |src| < BufferSize ==> r.code == 0 && r.s.log == s.log)
            && (BufferCount(s) + |src| >= BufferSize ==> r.code == media(r.s.log))
  {
    var all := Pending(s) + src;
    WriteFromChunks(s, src, media, 0);
    ChunksCount(all);
  }

  /** `writeStr` on a non-NULL string writes exactly the bytes before its first
      NUL, wherever that NUL is; on NULL it is a no-op reporting 0. */
  lemma WriteStrText(s: State, mem: seq<byte>, n: nat, media: Media)
    requires Valid(s)
    requires n < |mem| && mem[n] == 0
    requires forall i :: 0 <= i < n ==> mem[i] != 0
    ensures 0 in mem
    ensures WriteStr(s, Some(mem), media) == Write(s, mem[..n], media)
    ensures WriteStr(s, None, media) == Step(s, 0)
  {
    assert mem[n] in mem;
    assert StrLen(mem) == n;
  }
}
