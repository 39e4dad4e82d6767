/** BufferedFileWriter as an object: a fixed array of BufferSize bytes, a
    cursor, the attached handle and the byte total, with the same byte-at-a-time
    copy loop as the original. Every method is proved to do what the matching
    function of BufferModel describes. */
module WriterClass {
  import opened BufferTypes
  import M = BufferModel

  class BufferedFileWriter {
    /** `buff`: allocated once and never resized. */
    const buff: array<byte>
    /** `writePtr - buff`. */
    var cursor: nat
    /** `file`; None is NULL. */
    var file: Option<FileId>
    /** `bytesWrittenTotal`. */
    var total: nat
    /** Every call made to the media write primitive, in order (not a field of the original). */
    var log: seq<MediaCall>
    /** The media write primitive, FS_FWrite. */
    const media: Media

    /** The object seen as a state of the functional model. */
    function Abs(): M.State
      reads this, buff
    {
      M.State(buff[..], cursor, file, total, log)
    }

    ghost predicate Valid()
      reads this, buff
    {
      M.Valid(Abs())
    }

    constructor(media: Media)
      ensures Valid() && Abs() == M.Init() && this.media == media
    {
      buff := new byte[BufferSize](_ => 0);
      cursor := 0;
      file := None;
      total := 0;
      log := [];
      this.media := media;
      new;
      assert buff[..] == seq(BufferSize, _ => 0);
    }

    method SetFile(f: Option<FileId>)
      requires Valid()
      modifies this
      ensures Valid() && Abs() == M.SetFile(old(Abs()), f)
    {
      file := f;
      Clear();
    }

    method BufferCount() returns (n: nat)
      requires Valid()
      ensures n == M.BufferCount(Abs())
    {
      n := cursor;
    }

    method ResetBytesWrittenTotal()
      requires Valid()
      modifies this
      ensures Valid() && Abs() == M.ResetBytesWrittenTotal(old(Abs()))
    {
      total := 0;
    }

    method GetBytesWrittenTotal() returns (n: nat)
      ensures n == M.GetBytesWrittenTotal(Abs())
    {
      n := total;
    }

    method Clear()
      requires M.WellFormed(Abs())
      modifies this
      ensures Valid() && Abs() == M.Clear(old(Abs()))
    {
      cursor := 0;
    }

    method Flush() returns (code: uint32)
      requires M.WellFormed(Abs())
      modifies this
      ensures M.WellFormed(Abs())
      ensures M.Step(Abs(), code) == M.Flush(old(Abs()), media)
    {
      code := 0;
      if file.None? {
        code := WriteNoFile;
      } else if cursor > 0 {
        log := log + [MediaCall(file.value, buff[..cursor])];
        code := media(log);
        cursor := 0;
      }
    }

    method Write(src: seq<byte>) returns (code: uint32)
      requires Valid()
      modifies this, buff
      ensures Valid() && M.Step(Abs(), code) == M.Write(old(Abs()), src, media)
    {
      code := 0;
      if file.None? {
        code := WriteNoFile;
        return;
      }
      var i := 0;
      while i < |src|
        invariant 0 <= i <= |src|
        invariant M.WellFormed(Abs()) && cursor < BufferSize && file == old(file)
        invariant M.WriteFrom(Abs(), src[i..], media, code) == M.WriteFrom(old(Abs()), src, media, 0)
        decreases |src| - i
      {
        ghost var before := Abs();
        buff[cursor] := src[i];
        cursor := cursor + 1;
        total := total + 1;
        assert Abs() == M.AppendByte(before, src[i]);
        assert src[i..][1..] == src[i + 1..];
        if cursor >= BufferSize {
          code := Flush();
        }
        i := i + 1;
      }
      assert src[i..] == [];
    }

    method WriteStr(str: Option<seq<byte>>) returns (code: uint32)
      requires Valid()
      requires str.Some? ==> 0 in str.value
      modifies this, buff
      ensures Valid() && M.Step(Abs(), code) == M.WriteStr(old(Abs()), str, media)
    {
      code := 0;
      if str.Some? {
        var n := M.StrLen(str.value);
        code := Write(str.value[..n]);
      }
    }

    /** The destructor. */
    method Teardown()
      requires Valid()
      modifies this
      ensures Valid() && Abs() == M.Teardown(old(Abs()), media)
    {
      if file.Some? {
        var _ := Flush();
        file := None;
      }
    }
  }
}
