/** The state and operations of BufferedFileWriter, as pure functions over an
    immutable state. Each operation returns the next state; flush, write,
    writeStr also return their `uint32_t` result code. */
module BufferModel {
  import opened BufferTypes

  /** The writer's fields. `buff` is the fixed data buffer and `cursor` is the
      write pointer's offset into it (`writePtr - buff`); `file` is the attached
      handle and `total` is `bytesWrittenTotal`. `log` is not a field of the
      object: it records, in order, every call the writer made to the media
      write primitive, so that properties about what reached the media can be
      stated. The printf line buffer is not modelled. */
  datatype State = State(
    buff: seq<byte>,
    cursor: nat,
    file: Option<FileId>,
    total: nat,
    log: seq<MediaCall>)

  /** A state together with the result code of the operation that produced it. */
  datatype Step = Step(s: State, code: uint32)

  /** The buffer keeps its fixed capacity and the cursor stays within it. */
  predicate WellFormed(s: State)
  {
    |s.buff| == BufferSize && s.cursor <= BufferSize
  }

  /** The state between two public calls. A full buffer is always flushed before
      `write` returns, so the cursor is strictly below capacity; and with no
      file attached nothing can have been buffered, so the writer is in one of
      two states: Unattached with an empty buffer, or Attached. */
  predicate Valid(s: State)
  {
    WellFormed(s) && s.cursor < BufferSize && (s.file.None? ==> s.cursor == 0)
  }

  /** The bytes accepted but not yet handed to the media. */
  function Pending(s: State): seq<byte>
    requires WellFormed(s)
  {
    s.buff[..s.cursor]
  }

  /** `bufferCount()`: the number of bytes accepted but not yet flushed. */
  function BufferCount(s: State): (r: nat)
    requires WellFormed(s)
    ensures r == |Pending(s)|
    ensures Valid(s) ==> r < BufferSize
  {
    s.cursor
  }

  /** `getBytesWrittenTotal()`. */
  function GetBytesWrittenTotal(s: State): nat
  {
    s.total
  }

  /** The constructor: nothing counted, no file, an empty buffer, no media call.
      The initial buffer contents are never observable and are taken as zeros. */
  function Init(): (r: State)
    ensures Valid(r)
    ensures r.file.None? && GetBytesWrittenTotal(r) == 0 && BufferCount(r) == 0
    ensures r.log == []
  {
    State(seq(BufferSize, _ => 0), 0, None, 0, [])
  }

  /** `clear()`: drops the buffered bytes and touches nothing else. */
  function Clear(s: State): (r: State)
    requires WellFormed(s)
    ensures Valid(r)
    ensures BufferCount(r) == 0
    ensures r.total == s.total && r.file == s.file && r.log == s.log && r.buff == s.buff
  {
    s.(cursor := 0)
  }

  /** `resetBytesWrittenTotal()`: zeroes the total and touches nothing else. */
  function ResetBytesWrittenTotal(s: State): (r: State)
    requires Valid(s)
    ensures Valid(r)
    ensures GetBytesWrittenTotal(r) == 0
    ensures r.cursor == s.cursor && r.buff == s.buff && r.file == s.file && r.log == s.log
  {
    s.(total := 0)
  }

  /** `setFile(f)`: attaches `f` (None is NULL) and clears the buffer. Pending
      bytes are dropped, not flushed; the total is kept. */
  function SetFile(s: State, f: Option<FileId>): (r: State)
    requires Valid(s)
    ensures Valid(r)
    ensures r.file == f && BufferCount(r) == 0
    ensures r.total == s.total && r.log == s.log
  {
    Clear(s.(file := f))
  }

  /** `flush()`. With no file it reports WriteNoFile and changes nothing; with
      an empty buffer it changes nothing and reports 0; otherwise it makes one
      media call on the buffered bytes, reports that call's code, and empties
      the buffer whatever the code was. */
  function Flush(s: State, media: Media): (r: Step)
    requires WellFormed(s)
    ensures WellFormed(r.s)
    ensures r.s.file == s.file && r.s.total == s.total
    ensures s.file.None? ==> r == Step(s, WriteNoFile)
    ensures s.file.Some? ==> BufferCount(r.s) == 0
    ensures s.file.Some? && BufferCount(s) == 0 ==> r == Step(s, 0)
    ensures s.file.Some? && BufferCount(s) > 0 ==>
              && r.s.log == s.log + [MediaCall(s.file.value, Pending(s))]
              && r.code == media(r.s.log)
    ensures Valid(s) ==> Valid(r.s)
  {
    if s.file.None? then
      Step(s, WriteNoFile)
    else if s.cursor > 0 then
      var log := s.log + [MediaCall(s.file.value, s.buff[..s.cursor])];
      Step(s.(cursor := 0, log := log), media(log))
    else
      Step(s, 0)
  }

  /** One iteration of the copy loop before its full-buffer test: store the
      byte at the cursor, advance the cursor, count the byte. */
  function AppendByte(s: State, b: byte): (r: State)
    requires WellFormed(s) && s.cursor < BufferSize
    ensures WellFormed(r)
    ensures Pending(r) == Pending(s) + [b]
    ensures r.total == s.total + 1 && r.file == s.file && r.log == s.log
  {
    s.(buff := s.buff[s.cursor := b], cursor := s.cursor + 1, total := s.total + 1)
  }

  /** The copy loop of `write` with a file attached: `src` are the bytes still
      to copy and `code` the result so far (0, or the last internal flush's code). */
  function WriteFrom(s: State, src: seq<byte>, media: Media, code: uint32): (r: Step)
    requires WellFormed(s) && s.cursor < BufferSize && s.file.Some?
    ensures Valid(r.s)
    ensures r.s.file == s.file
    ensures r.s.total == s.total + |src|
    ensures |r.s.log| >= |s.log|
    decreases |src|
  {
    if src == [] then
      Step(s, code)
    else
      var s1 := AppendByte(s, src[0]);
      if s1.cursor >= BufferSize then
        var f := Flush(s1, media);
        WriteFrom(f.s, src[1..], media, f.code)
      else
        WriteFrom(s1, src[1..], media, code)
  }

  /** `write(src, |src|)`. With no file it reports WriteNoFile and buffers and
      counts nothing; otherwise every byte is buffered and counted, and the
      buffer is flushed each time it becomes full. */
  function Write(s: State, src: seq<byte>, media: Media): (r: Step)
    requires Valid(s)
    ensures Valid(r.s)
    ensures s.file.None? ==> r == Step(s, WriteNoFile)
    ensures s.file.Some? ==> r.s.file == s.file && r.s.total == s.total + |src|
  {
    if s.file.None? then Step(s, WriteNoFile) else WriteFrom(s, src, media, 0)
  }

  /** `strlen`: the index of the first NUL byte of a terminated string. */
  function StrLen(mem: seq<byte>): (r: nat)
    requires 0 in mem
    ensures r < |mem| && mem[r] == 0
    ensures forall i :: 0 <= i < r ==> mem[i] != 0
    decreases |mem|
  {
    if mem[0] == 0 then 0 else 1 + StrLen(mem[1..])
  }

  /** `writeStr(str)`. A C string is the memory at the pointer, which must hold
      a terminating NUL; None is NULL. NULL writes nothing and reports 0, even
      with no file attached; otherwise the bytes before the first NUL are written. */
  function WriteStr(s: State, str: Option<seq<byte>>, media: Media): (r: Step)
    requires Valid(s)
    requires str.Some? ==> 0 in str.value
    ensures Valid(r.s)
    ensures str.None? ==> r == Step(s, 0)
  {
    if str.None? then Step(s, 0) else Write(s, str.value[..StrLen(str.value)], media)
  }

  /** The destructor: flushes if a file is attached, then detaches. */
  function Teardown(s: State, media: Media): (r: State)
    requires Valid(s)
    ensures Valid(r)
    ensures r.file.None? && BufferCount(r) == 0 && r.total == s.total
    ensures s.file.Some? && BufferCount(s) > 0 ==>
              r.log == s.log + [MediaCall(s.file.value, Pending(s))]
    ensures s.file.None? || BufferCount(s) == 0 ==> r.log == s.log
  {
    if s.file.Some? then Flush(s, media).s.(file := None) else s
  }
}
