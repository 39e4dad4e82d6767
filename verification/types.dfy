/** Basic types shared by the buffered file writer model: bytes, the 32-bit
    result code, the optional file handle, the capacities, and the record of
    calls made to the media write primitive (FS_FWrite). */
module BufferTypes {

  /** One byte of file data; the source copies `char`s without interpreting them. */
  type byte = bv8

  /** The `uint32_t` returned by flush, write and writeStr. */
  newtype uint32 = x: int | 0 <= x < 0x1_0000_0000

  /** An opaque identity for an `FS_FILE *` that is not NULL. */
  type FileId = nat

  /** The `FS_FILE *` handle: `None` is NULL. */
  datatype Option<+T> = None | Some(value: T)

  /** Capacity of the data buffer, fixed at compile time. */
  const BufferSize: nat := 4096

  /** Capacity of the printf line buffer, fixed at compile time. Kept so that both
      capacities of the object are named; the line buffer and the formatted write
      that uses it are not modelled, so nothing refers to it. */
  const LineBuffSize: nat := 2048

  /** The `WriteNoFile` result: `UINT32_MAX`, returned when no file is attached. */
  const WriteNoFile: uint32 := 0xFFFF_FFFF

  /** One call of the media write primitive: the file written to and the bytes handed over. */
  datatype MediaCall = MediaCall(file: FileId, data: seq<byte>)

  /** The media write primitive, as seen by the writer: given every call made so far,
      the last of which is the call being answered, it returns that call's result code.
      Nothing is assumed about the code, so short writes and errors are all covered. */
  type Media = seq<MediaCall> -> uint32

  /** The number of bytes handed over by `calls`, summed call by call. */
  function DataLength(calls: seq<MediaCall>): nat
  {
    if calls == [] then 0 else DataLength(calls[..|calls| - 1]) + |calls[|calls| - 1].data|
  }

  /** Everything the media primitive was handed, in call order. */
  function Sent(calls: seq<MediaCall>): (r: seq<byte>)
    ensures |r| == DataLength(calls)
  {
    if calls == [] then [] else Sent(calls[..|calls| - 1]) + calls[|calls| - 1].data
  }

  lemma {:induction false} SentAppend(a: seq<MediaCall>, b: seq<MediaCall>)
    ensures Sent(a + b) == Sent(a) + Sent(b)
    decreases |b|
  {
    if b == [] {
      assert a + b == a;
    } else {
      var last := b[|b| - 1];
      assert (a + b)[..|a + b| - 1] == a + b[..|b| - 1];
      assert (a + b)[|a + b| - 1] == last;
      SentAppend(a, b[..|b| - 1]);
    }
  }
}
