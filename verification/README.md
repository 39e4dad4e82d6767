# BufferedFileWriter in Dafny

A model of `BufferedFileWriter`, a fixed-capacity write buffer that sits in
front of a slow block-file write primitive (`FS_FWrite`). The writer gathers
bytes in a 4096-byte buffer, hands the buffer to `FS_FWrite` whenever it
becomes full or `flush()` is called, and keeps a running total of the bytes
accepted, so that a caller can roll log files over without asking the file
system for a file size.

The model has four layers:

- `types.dfy` (module `BufferTypes`): bytes (`bv8`), the `uint32` result
  code, the optional handle (`None` is a NULL `FS_FILE *`), the constants
  `BufferSize` = 4096, `LineBuffSize` = 2048 and `WriteNoFile` = `UINT32_MAX`,
  and `MediaCall`, one call of the media primitive.
- `buffer_model.dfy` (module `BufferModel`): the writer's fields as an
  immutable `State`, and every operation of the class as a pure function. The
  state also carries `log`, the list of media calls made so far. It is not a
  field of the C++ object. It is there so that contracts can say what reached
  the media.
- `chunking.dfy`, `write_proofs.dfy` (modules `Chunking`, `WriteProofs`): the
  byte-at-a-time copy loop of `write` is proved equal to a bulk reference. The
  reference splits (buffered bytes ++ new bytes) into whole `BufferSize` chunks,
  each sent by one media call, and a short rest that stays buffered.
- `session.dfy` (module `Session`): sequences of calls. The writer is proved to
  stay in step with a reference machine that only knows byte streams (sent,
  pending, file, total). The main claim is proved here: across any calls other
  than `setFile` and `clear`, the media chunks plus the pending buffer equal
  everything accepted. Both of those calls drop the pending bytes by design.
- `writer_class.dfy` (module `WriterClass`): the class itself, with an
  `array<bv8>` buffer, a cursor and the same copy loop. Each method is proved to
  do what the matching `BufferModel` function says.

The media primitive is a parameter `media: seq<MediaCall> -> uint32`. It is
given every call made so far, the last being the one it answers, and may return
any code. No property depends on what it returns, so short writes and errors
are covered. `BufferSize` is a named constant.

Between calls the cursor is always strictly below `BufferSize`. A buffer that
becomes full inside `write` is flushed before the next byte is copied, because
a file is attached whenever `write` copies. With no file attached the buffer is
empty. These facts make up the `Valid` state invariant.

Where the comments and the code disagree, the model follows the code:

- The sentinel is `UINT32_MAX`, not `0xffff` as the `writeStr` comment says.
- `flush` reports `WriteNoFile`; the comment calls it `WriteFail`.
- Only `resetBytesWrittenTotal` zeroes the total. The `getBytesWrittenTotal`
  comment says the count runs since the last `clear()`, but `clear` never
  touches it.
- `writeStr(NULL)` returns 0 even when no file is attached; only a non-NULL
  string reaches `write` and its `WriteNoFile`.

## Model

| member | source | states |
|---|---|---|
| BufferModel.Init | BufferedFileWriter.cpp:17-23 | after construction no file is attached, the total is 0, `bufferCount()` is 0, no media call was made, and the writer is in its valid two-state invariant |
| BufferModel.SetFile | BufferedFileWriter.cpp:36-40 | `setFile(f)` stores `f`, leaves 0 bytes buffered (pending bytes are dropped, not flushed), keeps the byte total and makes no media call |
| BufferModel.BufferCount | BufferedFileWriter.cpp:43-46 | `bufferCount()` is the number of bytes accepted and not yet handed to the media, always below `BufferSize` between calls |
| BufferModel.ResetBytesWrittenTotal | BufferedFileWriter.cpp:48-51 | the total becomes 0; buffer contents, cursor, file and media log are untouched |
| BufferModel.Clear | BufferedFileWriter.cpp:63-66 | `clear()` empties the buffer and leaves the total, the file and the media log as they were |
| BufferModel.Flush | BufferedFileWriter.cpp:71-83 | with no file: `WriteNoFile`, nothing changes; with an empty buffer: 0, nothing changes; otherwise exactly one media call on the buffered bytes, its code returned, and the buffer empty whatever the code; the total never changes |
| BufferModel.AppendByte | BufferedFileWriter.cpp:98-100 | one copy step appends the byte to the pending bytes and counts it |
| BufferModel.WriteFrom | BufferedFileWriter.cpp:97-105 | the copy loop keeps the file, counts every byte and leaves the cursor below capacity |
| BufferModel.Write | BufferedFileWriter.cpp:89-108 | with no file: `WriteNoFile`, nothing buffered or counted; with a file: the total grows by exactly the number of bytes given |
| BufferModel.StrLen | BufferedFileWriter.cpp:119 | `strlen` is the index of the first NUL byte; no byte before it is NUL |
| BufferModel.WriteStr | BufferedFileWriter.cpp:115-122 | a NULL string writes nothing and returns 0 |
| BufferModel.Teardown | BufferedFileWriter.cpp:25-31 | the destructor leaves no file attached and nothing buffered; if a file was attached with pending bytes they are handed to the media in one call; the total is kept |
| WriteProofs.WriteFromChunks | BufferedFileWriter.cpp:97-105 | the copy loop makes one media call per whole `BufferSize` chunk of (buffered bytes ++ source), in order and on the attached file, keeps the short rest buffered, and reports the last call's code or the earlier code if it made none |
| WriteProofs.WriteRoundTrip | BufferedFileWriter.cpp:92-107 | the new media chunks concatenated, followed by what stays buffered, equal the previously buffered bytes followed by the source, byte-exact including zero bytes; each new call carries `BufferSize` bytes on the attached file; older calls are untouched |
| WriteProofs.WriteCounts | BufferedFileWriter.cpp:97-105 | from cursor c with n bytes: exactly (c+n)/BufferSize media calls, final `bufferCount()` (c+n)%BufferSize, total grows by n whatever the media returned |
| WriteProofs.WriteReturnCode | BufferedFileWriter.h:85-87 | `write` returns 0 and makes no media call when no flush happens, and otherwise returns the last media call's code |
| WriteProofs.WriteStrText | BufferedFileWriter.h:91 | `writeStr` on a non-NULL string writes exactly the bytes before its first NUL, whichever index that NUL is at; on NULL it changes nothing and returns 0 |
| WriterClass.BufferedFileWriter.Write | BufferedFileWriter.cpp:89-108 | the array-and-cursor copy loop, flushing whenever the cursor reaches the end of the array, leaves the object in exactly the state and returns exactly the code `BufferModel.Write` describes |
| Session.TotalCountsAccepted | BufferedFileWriter.cpp:55-58 | `getBytesWrittenTotal()` after any calls equals a count worked out from the calls alone: each `write` made while attached adds its length, whether the bytes were flushed or still buffered; `resetBytesWrittenTotal` sets it to 0; `setFile`, `clear` and `flush` leave it alone |
| Session.TotalFromInit | BufferedFileWriter.h:66 | from construction the total is the number of bytes accepted since construction or the last `resetBytesWrittenTotal()`, buffer included |
| WriterClass.BufferedFileWriter.constructor | BufferedFileWriter.cpp:17-23 | the constructed object is in exactly the state `BufferModel.Init` describes |
| WriterClass.BufferedFileWriter.SetFile | BufferedFileWriter.cpp:36-40 | the object ends in exactly the state `BufferModel.SetFile` describes |
| WriterClass.BufferedFileWriter.BufferCount | BufferedFileWriter.cpp:43-46 | returns `BufferModel.BufferCount` of the object: the number of pending bytes |
| WriterClass.BufferedFileWriter.ResetBytesWrittenTotal | BufferedFileWriter.cpp:48-51 | the object ends in exactly the state `BufferModel.ResetBytesWrittenTotal` describes |
| WriterClass.BufferedFileWriter.GetBytesWrittenTotal | BufferedFileWriter.cpp:55-58 | returns the object's total, the quantity `Session.TotalCountsAccepted` characterises |
| WriterClass.BufferedFileWriter.Clear | BufferedFileWriter.cpp:63-66 | the object ends in exactly the state `BufferModel.Clear` describes |
| WriterClass.BufferedFileWriter.Flush | BufferedFileWriter.cpp:71-83 | the object's state and the returned code are exactly those of `BufferModel.Flush` |
| WriterClass.BufferedFileWriter.WriteStr | BufferedFileWriter.cpp:115-122 | the object's state and the returned code are exactly those of `BufferModel.WriteStr` |
| WriterClass.BufferedFileWriter.Teardown | BufferedFileWriter.cpp:25-31 | the object ends in exactly the state `BufferModel.Teardown` describes |
| Session.Run | BufferedFileWriter.h:113-122 | any sequence of calls keeps the buffer at its fixed capacity, the cursor below it, and the buffer empty while no file is attached |
| Session.ApplyRefines | BufferedFileWriter.cpp:36-107 | every public call keeps the writer in step with the byte-stream reference: bytes sent, bytes pending, file and total |
| Session.RunRefines | BufferedFileWriter.cpp:36-107 | the same for any sequence of calls |
| Session.SessionFromInit | BufferedFileWriter.h:120-122 | from construction the media has received exactly the reference stream and the total is the count of bytes accepted (buffered or flushed) since construction or the last reset |
| Session.AttachedSession | BufferedFileWriter.h:6-8 | with a file attached, across any calls other than `setFile` and `clear` (write, flush, resetBytesWrittenTotal), the file stays attached and the media calls made since, concatenated, followed by the buffer, are the bytes buffered at the start followed by everything written, even if media calls failed |
| Session.TeardownDelivers | BufferedFileWriter.cpp:25-31 | after the destructor the media has received every byte that was pending |
| Session.ReattachSameFile | BufferedFileWriter.h:58-61 | attach, write 10 bytes, re-attach the same file, write 5: the total grew by 15, exactly the last 5 bytes are buffered, no media call was made |
| Session.TwoFlushWrite | BufferedFileWriter.cpp:102 | a write of 2*BufferSize+3 bytes into an empty buffer makes exactly two full-buffer media calls, on the first and second BufferSize bytes, and leaves 3 bytes buffered |
| Session.ClearAndResetIndependent | BufferedFileWriter.h:72-74 | `clear` and `resetBytesWrittenTotal` are each idempotent, commute, and neither changes what the other manages |

## Left out

- `logPrintf` / `vprintf` and the line buffer `lineBuff`: they depend on varargs and `vsnprintf`, a foreign formatting library. The source is also inconsistent here. The header declares `vprintf` (BufferedFileWriter.h:105) but the .cpp defines an undeclared `logPrintf` (BufferedFileWriter.cpp:129). `logPrintf` is declared `bool` but never returns a value. It passes `vsnprintf`'s untruncated and possibly negative length straight to `write` (BufferedFileWriter.cpp:133-135), and it does not check for the NULL format its comment promises to accept. `LineBuffSize` is declared so that both capacities are named, but nothing in the model uses it.
- What `FS_FWrite` does inside: the model sees only the calls made and the `uint32` each returns, which may be any value. A media code equal to `UINT32_MAX` cannot be told apart from `WriteNoFile`; the model does not try. File open and close are not modelled.
- `setDebug4` GPIO toggles (BufferedFileWriter.cpp:77, 79): debug output with no effect on the writer's state.
- The blocked copy constructor and assignment operator, and the advice to use static instances: C++ artefacts, not behaviour.
- Concurrency: the class has none and offers no synchronisation.
- `size_t` overflow of the byte total and of the cursor: both are unbounded `nat`.
- Pointers: `write(source, nChars)` is modelled as a byte sequence whose length is `nChars`, so reading past the caller's buffer is not modelled. A C string is the memory at the pointer, and it must contain a NUL for `strlen` to be defined.
- The initial contents of the data buffer are taken as zeros; they are never observable, since the cursor starts at 0.
- `writeStr` is not one of the call kinds in `Session`'s traces: `WriteStrText` shows it is `write` on the bytes before the NUL, or a no-op for NULL.
- `BufferModel.GetBytesWrittenTotal` carries no contract of its own: it returns the total field, and what that total means is stated by `Session.TotalCountsAccepted`.
- `WriterClass.BufferedFileWriter`: its methods are stated against `BufferModel` with `old(...)`, which only relates the object to the functional model; the properties themselves are proved about the functional model.
