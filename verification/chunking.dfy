/** The bulk view of a buffered write: a byte stream handed to a full-flushing
    buffer of capacity BufferSize leaves as whole BufferSize-byte chunks, and the
    tail shorter than one chunk stays behind. This is the reference the
    byte-at-a-time copy loop of `write` is proved against. */
module Chunking {
  import opened BufferTypes

  /** The whole BufferSize-byte chunks at the front of `all`, in order. */
  function Chunks(all: seq<byte>): seq<seq<byte>>
    decreases |all|
  {
    if |all| < BufferSize then [] else [all[..BufferSize]] + Chunks(all[BufferSize..])
  }

  /** What is left of `all` once its whole chunks are taken away. */
  function Rest(all: seq<byte>): (r: seq<byte>)
    ensures |r| < BufferSize
    decreases |all|
  {
    if |all| < BufferSize then all else Rest(all[BufferSize..])
  }

  /** Concatenation of a sequence of chunks. */
  function Flatten(chunks: seq<seq<byte>>): seq<byte>
    decreases |chunks|
  {
    if chunks == [] then [] else chunks[0] + Flatten(chunks[1..])
  }

  /** Each chunk becomes one media call on file `f`. */
  function Calls(f: FileId, chunks: seq<seq<byte>>): (r: seq<MediaCall>)
    ensures |r| == |chunks|
    decreases |chunks|
  {
    if chunks == [] then [] else [MediaCall(f, chunks[0])] + Calls(f, chunks[1..])
  }

  /** Every chunk is exactly one full buffer. */
  lemma {:induction false} ChunksFull(all: seq<byte>)
    ensures forall i :: 0 <= i < |Chunks(all)| ==> |Chunks(all)[i]| == BufferSize
    decreases |all|
  {
    if |all| >= BufferSize {
      ChunksFull(all[BufferSize..]);
      var r := Chunks(all);
      assert r == [all[..BufferSize]] + Chunks(all[BufferSize..]);
      forall i | 0 <= i < |r| ensures |r[i]| == BufferSize {
        if i > 0 {
          assert r[i] == Chunks(all[BufferSize..])[i - 1];
        }
      }
    }
  }

  /** The i-th call of Calls(f, chunks) sends the i-th chunk to `f`. */
  lemma {:induction false} CallsAt(f: FileId, chunks: seq<seq<byte>>)
    ensures forall i :: 0 <= i < |chunks| ==> Calls(f, chunks)[i] == MediaCall(f, chunks[i])
    decreases |chunks|
  {
    if chunks != [] {
      CallsAt(f, chunks[1..]);
      var r := Calls(f, chunks);
      assert r == [MediaCall(f, chunks[0])] + Calls(f, chunks[1..]);
      forall i | 0 <= i < |chunks| ensures r[i] == MediaCall(f, chunks[i]) {
        if i > 0 {
          assert r[i] == Calls(f, chunks[1..])[i - 1];
          assert chunks[1..][i - 1] == chunks[i];
        }
      }
    }
  }

  /** Splitting loses and reorders nothing: the chunks followed by the rest are `all`. */
  lemma {:induction false} ChunksRestSplit(all: seq<byte>)
    ensures Flatten(Chunks(all)) + Rest(all) == all
    decreases |all|
  {
    if |all| >= BufferSize {
      ChunksRestSplit(all[BufferSize..]);
      assert all == all[..BufferSize] + all[BufferSize..];
    }
  }

  /** There are exactly |all| / BufferSize chunks and |all| % BufferSize bytes remain. */
  lemma {:induction false} ChunksCount(all: seq<byte>)
    ensures |Chunks(all)| == |all| / BufferSize
    ensures |Rest(all)| == |all| % BufferSize
    decreases |all|
  {
    if |all| >= BufferSize {
      ChunksCount(all[BufferSize..]);
    }
  }

  /** The bytes sent by the calls for `chunks` are the chunks, concatenated. */
  lemma {:induction false} SentCalls(f: FileId, chunks: seq<seq<byte>>)
    ensures Sent(Calls(f, chunks)) == Flatten(chunks)
    decreases |chunks|
  {
    if chunks != [] {
      SentCalls(f, chunks[1..]);
      assert Calls(f, chunks) == [MediaCall(f, chunks[0])] + Calls(f, chunks[1..]);
      SentAppend([MediaCall(f, chunks[0])], Calls(f, chunks[1..]));
      assert Sent([MediaCall(f, chunks[0])]) == chunks[0] by {
        assert [MediaCall(f, chunks[0])][..0] == [];
      }
    }
  }

  /** A stream that starts with one full chunk splits into that chunk and the
      chunks of what follows. */
  lemma FullChunkFirst(head: seq<byte>, tail: seq<byte>)
    requires |head| == BufferSize
    ensures Chunks(head + tail) == [head] + Chunks(tail)
    ensures Rest(head + tail) == Rest(tail)
  {
    assert (head + tail)[..BufferSize] == head;
    assert (head + tail)[BufferSize..] == tail;
  }

  /** A stream shorter than one chunk stays entirely behind. */
  lemma ShortStream(all: seq<byte>)
    requires |all| < BufferSize
    ensures Chunks(all) == [] && Rest(all) == all
  {
  }
}
