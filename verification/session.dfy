/** Sequences of calls on one writer. The writer is compared with a reference
    machine that only knows byte streams: what has been handed to the media,
    what is still pending, the attached file and the byte total. */
module Session {
  import opened BufferTypes
  import opened Chunking
  import opened BufferModel
  import opened WriteProofs

  /** A public call on the writer (writeStr is `write` on the bytes before the NUL). */
  datatype Op =
    | SetFileOp(f: Option<FileId>)
    | ClearOp
    | ResetTotalOp
    | FlushOp
    | WriteOp(src: seq<byte>)

  /** The writer's state after one call; result codes are dropped. */
  function Apply(s: State, op: Op, media: Media): (r: State)
    requires Valid(s)
    ensures Valid(r)
  {
    match op
    case SetFileOp(f) => SetFile(s, f)
    case ClearOp => Clear(s)
    case ResetTotalOp => ResetBytesWrittenTotal(s)
    case FlushOp => Flush(s, media).s
    case WriteOp(src) => Write(s, src, media).s
  }

  /** The writer's state after a sequence of calls. */
  function Run(s: State, ops: seq<Op>, media: Media): (r: State)
    requires Valid(s)
    ensures Valid(r)
    decreases |ops|
  {
    if ops == [] then s else Run(Apply(s, ops[0], media), ops[1..], media)
  }

  /** The reference: `sent` is every byte handed to the media so far, in order;
      `pending` the bytes accepted and not yet handed over. */
  datatype Stream = Stream(sent: seq<byte>, pending: seq<byte>, file: Option<FileId>, total: nat)

  function StreamInit(): Stream
  {
    Stream([], [], None, 0)
  }

  /** One call on the reference. Attaching or clearing discards the pending
      bytes; only the reset touches the total; with a file attached a flush hands
      over all pending bytes, and a write accepts and counts every byte, handing
      over the longest prefix of (pending ++ src) whose length is a multiple of
      BufferSize. Without a file, flush and write change nothing. */
  function StreamApply(a: Stream, op: Op): Stream
  {
    match op
    case SetFileOp(f) => a.(file := f, pending := [])
    case ClearOp => a.(pending := [])
    case ResetTotalOp => a.(total := 0)
    case FlushOp =>
      if a.file.None? then a else a.(sent := a.sent + a.pending, pending := [])
    case WriteOp(src) =>
      if a.file.None? then a
      else
        var all := a.pending + src;
        var cut := |all| - |all| % BufferSize;
        a.(sent := a.sent + all[..cut], pending := all[cut..], total := a.total + |src|)
  }

  function StreamRun(a: Stream, ops: seq<Op>): Stream
    decreases |ops|
  {
    if ops == [] then a else StreamRun(StreamApply(a, ops[0]), ops[1..])
  }

  /** The writer state `s` shows the stream `a`. */
  predicate Refines(s: State, a: Stream)
    requires WellFormed(s)
  {
    Sent(s.log) == a.sent && Pending(s) == a.pending && s.file == a.file && s.total == a.total
  }

  /** The bulk split used by `write`: whole chunks, then the short rest. */
  lemma ChunkCut(all: seq<byte>)
    ensures var cut := |all| - |all| % BufferSize;
            0 <= cut <= |all| && Flatten(Chunks(all)) == all[..cut] && Rest(all) == all[cut..]
  {
    ChunksRestSplit(all);
    ChunksCount(all);
    var cut := |all| - |all| % BufferSize;
    assert |Flatten(Chunks(all))| == cut;
  }

  /** Every single call keeps the writer in step with the reference. */
  lemma ApplyRefines(s: State, a: Stream, op: Op, media: Media)
    requires Valid(s) && Refines(s, a)
    ensures Refines(Apply(s, op, media), StreamApply(a, op))
  {
    match op
    case SetFileOp(f) =>
    case ClearOp =>
    case ResetTotalOp =>
    case FlushOp => FlushRefines(s, a, media);
    case WriteOp(src) => WriteRefines(s, a, src, media);
  }

  lemma FlushRefines(s: State, a: Stream, media: Media)
    requires Valid(s) && Refines(s, a)
    ensures Refines(Flush(s, media).s, StreamApply(a, FlushOp))
  {
    if s.file.Some? && BufferCount(s) > 0 {
      SentAppend(s.log, [MediaCall(s.file.value, Pending(s))]);
      SentOne(s.file.value, Pending(s));
    }
  }

  lemma WriteRefines(s: State, a: Stream, src: seq<byte>, media: Media)
    requires Valid(s) && Refines(s, a)
    ensures Refines(Write(s, src, media).s, StreamApply(a, WriteOp(src)))
  {
    if s.file.Some? {
      var f := s.file.value;
      var all := Pending(s) + src;
      var r := Write(s, src, media);
      WriteFromChunks(s, src, media, 0);
      assert r.s.log == s.log + Calls(f, Chunks(all));
      SentAppend(s.log, Calls(f, Chunks(all)));
      SentCalls(f, Chunks(all));
      ChunkCut(all);
    }
  }

  /** One call sends its data. */
  lemma SentOne(f: FileId, data: seq<byte>)
    ensures Sent([MediaCall(f, data)]) == data
  {
    assert [MediaCall(f, data)][..0] == [];
  }

  /** Any sequence of calls keeps the writer in step with the reference. */
  lemma {:induction false} RunRefines(s: State, a: Stream, ops: seq<Op>, media: Media)
    requires Valid(s) && Refines(s, a)
    ensures Refines(Run(s, ops, media), StreamRun(a, ops))
    decreases |ops|
  {
    if ops != [] {
      ApplyRefines(s, a, ops[0], media);
      RunRefines(Apply(s, ops[0], media), StreamApply(a, ops[0]), ops[1..], media);
    }
  }

  /** From construction, after any calls, the media has received exactly the
      reference's stream, the buffer holds its pending bytes, and the total is
      the reference's count of bytes accepted since the last reset. */
  lemma SessionFromInit(ops: seq<Op>, media: Media)
    ensures Refines(Run(Init(), ops, media), StreamRun(StreamInit(), ops))
  {
    assert Refines(Init(), StreamInit());
    RunRefines(Init(), StreamInit(), ops, media);
  }

  /** Calls other than setFile and clear: the buffer is never emptied except by
      handing its bytes to the media, and the attached file never changes. */
  predicate Attached(ops: seq<Op>)
  {
    forall i :: 0 <= i < |ops| ==> ops[i].WriteOp? || ops[i].FlushOp? || ops[i].ResetTotalOp?
  }

  /** Everything the writes of `ops` hand to `write`, in order. */
  function Payload(ops: seq<Op>): seq<byte>
    decreases |ops|
  {
    if ops == [] then [] else (if ops[0].WriteOp? then ops[0].src else []) + Payload(ops[1..])
  }

  /** Media calls only ever get added to the log. */
  lemma {:induction false} RunExtendsLog(s: State, ops: seq<Op>, media: Media)
    requires Valid(s)
    ensures |Run(s, ops, media).log| >= |s.log|
    ensures Run(s, ops, media).log[..|s.log|] == s.log
    decreases |ops|
  {
    if ops != [] {
      var s1 := Apply(s, ops[0], media);
      ApplyExtendsLog(s, ops[0], media);
      RunExtendsLog(s1, ops[1..], media);
      var r := Run(s1, ops[1..], media);
      assert r.log[..|s.log|] == r.log[..|s1.log|][..|s.log|];
    }
  }

  lemma ApplyExtendsLog(s: State, op: Op, media: Media)
    requires Valid(s)
    ensures |Apply(s, op, media).log| >= |s.log|
    ensures Apply(s, op, media).log[..|s.log|] == s.log
  {
    if op.WriteOp? && s.file.Some? {
      WriteRoundTrip(s, op.src, media);
    }
  }

  /** The main claim: across any calls other than setFile and clear (both of
      which drop the buffered bytes), the media calls made since the start, concatenated, followed by the buffered bytes, are the bytes that were
      buffered at the start followed by everything handed to `write`, whatever
      the media calls returned. */
  lemma {:induction false} AttachedSession(s: State, ops: seq<Op>, media: Media)
    requires Valid(s) && s.file.Some? && Attached(ops)
    ensures var r := Run(s, ops, media);
            && r.file == s.file
            && |r.log| >= |s.log|
            && Sent(r.log[|s.log|..]) + Pending(r) == Pending(s) + Payload(ops)
    decreases |ops|
  {
    var r := Run(s, ops, media);
    RunExtendsLog(s, ops, media);
    if ops == [] {
      assert r.log[|s.log|..] == [];
    } else {
      var s1 := Apply(s, ops[0], media);
      assert Attached(ops[1..]) by {
        forall i | 0 <= i < |ops[1..]|
          ensures ops[1..][i].WriteOp? || ops[1..][i].FlushOp? || ops[1..][i].ResetTotalOp?
        {
          assert ops[1..][i] == ops[i + 1];
        }
      }
      assert ops[0].WriteOp? || ops[0].FlushOp? || ops[0].ResetTotalOp?;
      var head := if ops[0].WriteOp? then ops[0].src else [];
      ApplyExtendsLog(s, ops[0], media);
      AttachedStep(s, ops[0], media);
      AttachedSession(s1, ops[1..], media);
      RunExtendsLog(s1, ops[1..], media);
      assert r == Run(s1, ops[1..], media);
      SentSplit(s.log, s1.log, r.log);
      assert Payload(ops) == head + Payload(ops[1..]);
      Regroup(Sent(s1.log[|s.log|..]), Sent(r.log[|s1.log|..]), Pending(r),
              Pending(s1), Pending(s), head, Payload(ops[1..]));
    }
  }

  /** Regrouping of the two halves of AttachedSession's inductive step. */
  lemma Regroup(x: seq<byte>, y: seq<byte>, p: seq<byte>, p1: seq<byte>, p0: seq<byte>,
                h: seq<byte>, t: seq<byte>)
    requires x + p1 == p0 + h && y + p == p1 + t
    ensures (x + y) + p == p0 + (h + t)
  {
    calc {
      (x + y) + p;
      == x + (y + p);
      == (x + p1) + t;
      == p0 + (h + t);
    }
  }

  /** The calls added between three successive logs, sent in two parts. */
  lemma SentSplit(l0: seq<MediaCall>, l1: seq<MediaCall>, l2: seq<MediaCall>)
    requires |l0| <= |l1| <= |l2| && l2[..|l1|] == l1
    ensures Sent(l2[|l0|..]) == Sent(l1[|l0|..]) + Sent(l2[|l1|..])
  {
    assert l2[|l0|..] == l1[|l0|..] + l2[|l1|..];
    SentAppend(l1[|l0|..], l2[|l1|..]);
  }

  /** One call of AttachedSession. */
  lemma AttachedStep(s: State, op: Op, media: Media)
    requires Valid(s) && s.file.Some?
    requires op.WriteOp? || op.FlushOp? || op.ResetTotalOp?
    ensures var r := Apply(s, op, media);
            && r.file == s.file
            && |r.log| >= |s.log|
            && Sent(r.log[|s.log|..]) + Pending(r) ==
               Pending(s) + (if op.WriteOp? then op.src else [])
  {
    var r := Apply(s, op, media);
    match op
    case WriteOp(src) =>
      WriteRoundTrip(s, src, media);
    case FlushOp =>
      if BufferCount(s) > 0 {
        assert r.log[|s.log|..] == [MediaCall(s.file.value, Pending(s))];
        SentOne(s.file.value, Pending(s));
      } else {
        assert r.log[|s.log|..] == [];
      }
    case ResetTotalOp =>
      assert r.log[|s.log|..] == [];
  }

  /** The destructor hands every pending byte to the media when a file is
      attached; when none is, nothing is pending. */
  lemma TeardownDelivers(s: State, a: Stream, media: Media)
    requires Valid(s) && Refines(s, a)
    ensures Sent(Teardown(s, media).log) == a.sent + a.pending
  {
    var r := Teardown(s, media);
    if s.file.Some? && BufferCount(s) > 0 {
      SentAppend(s.log, [MediaCall(s.file.value, Pending(s))]);
      SentOne(s.file.value, Pending(s));
    } else {
      assert Pending(s) == [];
    }
  }

  /** Re-attaching the same file keeps the total but drops what was buffered:
      attach, write 10 bytes, attach the same file again, write 5 bytes; the
      total has grown by 15, the buffer holds exactly the last 5 bytes and the
      media was never called. */
  lemma ReattachSameFile(s: State, f: FileId, a: seq<byte>, b: seq<byte>, media: Media)
    requires Valid(s) && |a| == 10 && |b| == 5
    ensures var r := Run(s, [SetFileOp(Some(f)), WriteOp(a), SetFileOp(Some(f)), WriteOp(b)], media);
            && GetBytesWrittenTotal(r) == GetBytesWrittenTotal(s) + 15
            && BufferCount(r) == 5 && Pending(r) == b
            && r.log == s.log
  {
    var s1 := SetFile(s, Some(f));
    var s2 := Write(s1, a, media).s;
    WriteRoundTrip(s1, a, media);
    WriteReturnCode(s1, a, media);
    var s3 := SetFile(s2, Some(f));
    var s4 := Write(s3, b, media).s;
    WriteRoundTrip(s3, b, media);
    WriteReturnCode(s3, b, media);
    assert Pending(s3) == [] && Pending(s3) + b == b;
    assert s4.log == s3.log && s3.log == s.log;
    assert s4.log[|s3.log|..] == [];
    assert Pending(s4) == b;
    var ops := [SetFileOp(Some(f)), WriteOp(a), SetFileOp(Some(f)), WriteOp(b)];
    assert Run(s, ops, media) == Run(s1, ops[1..], media);
    assert Run(s1, ops[1..], media) == Run(s2, ops[2..], media);
    assert Run(s2, ops[2..], media) == Run(s3, ops[3..], media);
    assert Run(s3, ops[3..], media) == Run(s4, [], media);
  }

  /** One write of 2 * BufferSize + 3 bytes into an empty buffer flushes exactly
      twice, each time a full buffer, and leaves 3 bytes buffered. */
  lemma TwoFlushWrite(s: State, src: seq<byte>, media: Media)
    requires Valid(s) && s.file.Some? && BufferCount(s) == 0
    requires |src| == 2 * BufferSize + 3
    ensures var r := Write(s, src, media);
            && |r.s.log| == |s.log| + 2
            && r.s.log[|s.log|] == MediaCall(s.file.value, src[..BufferSize])
            && r.s.log[|s.log| + 1] == MediaCall(s.file.value, src[BufferSize..2 * BufferSize])
            && BufferCount(r.s) == 3 && Pending(r.s) == src[2 * BufferSize..]
  {
    var f := s.file.value;
    WriteFromChunks(s, src, media, 0);
    assert Pending(s) + src == src;
    FullChunkFirst(src[..BufferSize], src[BufferSize..]);
    assert src == src[..BufferSize] + src[BufferSize..];
    var t := src[BufferSize..];
    FullChunkFirst(t[..BufferSize], t[BufferSize..]);
    assert t == t[..BufferSize] + t[BufferSize..];
    ShortStream(t[BufferSize..]);
    assert Chunks(src) == [src[..BufferSize], t[..BufferSize]];
    assert t[..BufferSize] == src[BufferSize..2 * BufferSize];
    assert t[BufferSize..] == src[2 * BufferSize..];
    CallsAt(f, Chunks(src));
  }

  /** clear and resetBytesWrittenTotal are separate: each is idempotent, they
      commute, and neither disturbs what the other manages. */
  lemma ClearAndResetIndependent(s: State)
    requires Valid(s)
    ensures Clear(Clear(s)) == Clear(s)
    ensures ResetBytesWrittenTotal(ResetBytesWrittenTotal(s)) == ResetBytesWrittenTotal(s)
    ensures Clear(ResetBytesWrittenTotal(s)) == ResetBytesWrittenTotal(Clear(s))
    ensures GetBytesWrittenTotal(Clear(s)) == GetBytesWrittenTotal(s)
    ensures Pending(ResetBytesWrittenTotal(s)) == Pending(s)
  {
  }

  /** A count of the bytes `write` accepts, worked out from the calls alone:
      `n` is the count so far and `attached` whether a file is attached. A
      write adds its length only while attached, the reset sets the count to
      0, and nothing else changes it. */
  function AcceptedCount(n: nat, attached: bool, ops: seq<Op>): nat
    decreases |ops|
  {
    if ops == [] then n
    else
      match ops[0]
      case SetFileOp(f) => AcceptedCount(n, f.Some?, ops[1..])
      case ResetTotalOp => AcceptedCount(0, attached, ops[1..])
      case WriteOp(src) => AcceptedCount(if attached then n + |src| else n, attached, ops[1..])
      case _ => AcceptedCount(n, attached, ops[1..])
  }

  /** `getBytesWrittenTotal()` after any calls is the starting total plus every
      byte accepted by `write` since then, buffered or flushed, or, after a
      reset, every byte accepted since the last reset. clear, setFile and
      flush never change it. */
  lemma {:induction false} TotalCountsAccepted(s: State, ops: seq<Op>, media: Media)
    requires Valid(s)
    ensures GetBytesWrittenTotal(Run(s, ops, media)) == AcceptedCount(s.total, s.file.Some?, ops)
    decreases |ops|
  {
    if ops != [] {
      TotalCountsAccepted(Apply(s, ops[0], media), ops[1..], media);
    }
  }

  /** From construction the total is the count of accepted bytes since the last reset. */
  lemma TotalFromInit(ops: seq<Op>, media: Media)
    ensures GetBytesWrittenTotal(Run(Init(), ops, media)) == AcceptedCount(0, false, ops)
  {
    TotalCountsAccepted(Init(), ops, media);
  }
}
