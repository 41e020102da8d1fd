# stream-buffer: a verified model of the relay core

`stream-buffer` copies bytes from a source descriptor to a sink descriptor
through a fixed-capacity buffer. It writes the buffer out when it fills, when
the source ends or fails, and when a control signal asks for it. A companion
controller, `stream-buffer-ctl`, sends those signals. SIGHUP means flush.
SIGUSR1, carrying a packed unit and magnitude, means resize. A thread in the
relay turns each signal into a command record on an internal pipe, and the
engine thread decodes and applies those records between reads.

This project models that core in Dafny and proves its properties:

- `Units`: the `Unit` enumeration, the `In_bytes` values and the
  `UNIT_NAMES` / `UNIT_SIZES` tables.
- `SizeSpec`: `split_size_spec` and `parse_buffer_size`. The magnitude is
  read the way `strtoull` with base 0 reads a digit string: a leading `0`
  means octal, and the value saturates at 2^64 - 1. The byte count wraps
  modulo 2^64. A formatter is proved to round-trip with the parser.
- `Payload`: the 32-bit resize payload, with the unit in the top 4 bits and
  the magnitude in the low 28 bits. Packing and unpacking are proved
  inverse.
- `Ctl`: the controller's command dispatch, the 28-bit bound check and the
  payload it queues.
- `StreamBuffer`: the `Buffer` class, with its storage array and fill level.
- `Records` and `Listener`: the listener turns signals into command records
  and the engine decodes them. Decoding everything the listener wrote gives
  back the commands of the signals, in order.
- `EngineSpec`: the engine (`stream_data`, the command switch and the
  shutdown pass, in non-line mode) as a state machine over events. Its
  headline theorem is no data loss: after any run of events, the sink
  followed by the buffer's contents is exactly the input read. Once the
  engine has stopped, the sink holds all of it.
- `Engine`: the engine as imperative code on a `Buffer` object. Each
  method, and the whole loop, is proved to do what the state machine says.
- `Scenarios`: commands followed from the controller to the engine, and the
  standard fill, flush, resize and end-of-stream scenarios.

The command pipe is opened with `O_DIRECT`, which puts it in packet mode.
The model therefore treats it as a queue of packets. One `read` takes one
packet, cut to the size asked for. The pipe is blocking: in the code a read
on an empty pipe waits for the listener's next write. The model has no
waiting, so such a read returns nothing. That only matters for a pipe the
listener cannot produce, such as a lone Resize tag, because the listener
writes a Resize tag and its body back to back.

### Behaviour of the code worth knowing


- Zero sizes are accepted, and so is a magnitude with no digits ("KiB" is 0
  bytes). Only `std::out_of_range` from an unknown suffix is caught at
  start-up (src/main.cpp:334-339). With capacity 0, `left()` is 0, the next
  read returns 0, and the engine stops as if the source had closed
  (`EngineSpec.ZeroCapacityStopsAtNextRead`).
- A failed `epoll_wait` is logged and retried, not treated as fatal
  (src/main.cpp:180-188).
- A magnitude with a leading `0` is read as octal: "010KiB" is 8 KiB
  (`SizeSpec.OctalExample`).
- A Resize record whose unit byte names no unit still drains and writes the
  buffer. Only then does `UNIT_SIZES.at` throw, and the exception ends the
  process (`EngineSpec.User1BadUnitAborts`).
- On end of stream or a read error, `buffer_loop` returns immediately. It
  skips the final read-and-drain pass, which would find nothing buffered
  anyway.
- A read asks for at most `left()` bytes. With capacity 8 and 5 bytes
  buffered, the next read returns at most 3 bytes, and exactly 8 bytes are
  written when they arrive (`Scenarios.FillScenario`).
- A terminating signal sets the sentinel and still writes a `Nop` record.
- `In_bytes::PiB` is written `KiB * GiB`, that is 2^40, the same as TiB. The
  table is modelled as written (`Units.BinaryUnitSizes`).

## Model

| member | source | states |
|---|---|---|
| Units.Ordinal | include/stream-buffer/stream-buffer.h:59-71 | every unit's enumerator value lies in 1..11 |
| Units.FromOrdinal | include/stream-buffer/stream-buffer.h:99-111 | a value converted to `Unit` is a key of `UNIT_SIZES` exactly when it is 1..11, and then it is that unit's ordinal |
| Units.OrdinalRoundTrip | include/stream-buffer/stream-buffer.h:59-71 | ordinals identify units, none is 0, and each fits in 4 bits |
| Units.DecimalUnitSizes | include/stream-buffer/stream-buffer.h:72-82 | the `In_bytes` constants of B, KB, MB, GB, TB and PB are 1000^0 through 1000^5 bytes |
| Units.BinaryUnitSizes | include/stream-buffer/stream-buffer.h:75-83 | the `In_bytes` constants of KiB through TiB are 2^10 through 2^40 bytes; PiB as written is 2^40, equal to TiB |
| Units.UnitSize | include/stream-buffer/stream-buffer.h:99-111 | `UNIT_SIZES` maps every unit to its `In_bytes` value: a size of at least 1 that fits in 64 bits, equal to 1 only for B |
| Units.UnitNamesExact | include/stream-buffer/stream-buffer.h:86-98 | a string is a key of `UNIT_NAMES` exactly when it is some unit's name, and it maps to that unit |
| Units.UnitNameLookup | include/stream-buffer/stream-buffer.h:86-98 | each unit's name is in `UNIT_NAMES` and maps back to the unit |
| Units.NameStartsWithLetter | include/stream-buffer/stream-buffer.h:86-98 | no unit name starts with a digit, so a name after digits never extends the digit run |
| SizeSpec.FirstNonDigit | src/common.cpp:32 | the split point is the first non-digit, or the length when there is none |
| SizeSpec.OctalRun | src/common.cpp:37 | the longest octal-digit prefix, which `strtoull` base 0 reads after a leading 0 |
| SizeSpec.SplitSizeSpec | src/common.cpp:30-38 | fails exactly when the text after the digits is not a unit name; otherwise the magnitude is the digit prefix read by `strtoull` and the unit is the suffix's unit, or B when there is no suffix |
| SizeSpec.ParseBufferSize | src/common.cpp:40-45 | fails exactly when splitting fails; otherwise it is magnitude times unit size, modulo 2^64 |
| SizeSpec.StrToULL | src/common.cpp:37 | no digits read as 0; a leading 0 reads the longest octal prefix in base 8, otherwise the digits are read in base 10; a value beyond 64 bits saturates to 2^64 - 1 |
| SizeSpec.ToDecimal | src/common.cpp:37 | a decimal rendering with no leading zero, whose digit value is the number |
| SizeSpec.StrToULLToDecimal | src/common.cpp:37 | `strtoull` reads a number's decimal rendering back as the number |
| SizeSpec.FirstNonDigitAppend | src/common.cpp:32 | the split point of digits followed by a non-digit text is the length of the digits |
| SizeSpec.SplitFormatRoundTrip | src/common.cpp:30-38 | splitting `<number><unit name>` gives back the number and the unit, for every 64-bit number and unit |
| SizeSpec.SplitBareNumber | src/common.cpp:34-37 | every spec that is all digits, the empty one included, splits to unit B and the magnitude `strtoull` reads from the whole string |
| SizeSpec.SplitDecimal | src/common.cpp:34-37 | the decimal spelling of any 64-bit number splits to that number and unit B |
| SizeSpec.ParseFormat | src/common.cpp:40-45 | `<number><unit name>` parses to number times unit size, modulo 2^64 |
| SizeSpec.FourKiBExample | src/common.cpp:30-45 | "4KiB" is (4, KiB) and 4096 bytes |
| SizeSpec.OneMBExample | src/common.cpp:40-45 | "1MB" is 1000000 bytes |
| SizeSpec.BareNumberExample | src/common.cpp:34-35 | "10" is (10, B) and 10 bytes |
| SizeSpec.UnknownUnitExample | src/common.cpp:37 | "5XYZ" fails with "XYZ" as the invalid unit, and so does its byte count |
| SizeSpec.WrongCaseExample | src/common.cpp:37 | "4kib" fails: unit names are case-sensitive |
| SizeSpec.SpaceBeforeUnitExample | src/common.cpp:37 | "4 KiB" fails with " KiB" as the invalid unit |
| SizeSpec.ZeroMagnitudeExamples | src/common.cpp:33-37 | "KiB" is accepted as magnitude 0, and "0" parses to 0 bytes |
| SizeSpec.OctalExample | src/common.cpp:37 | "010KiB" is 8 KiB, 8192 bytes |
| SizeSpec.OctalOf010 | src/common.cpp:37 | "010" is read as octal 8 |
| Payload.Pack | src/ctl.cpp:58-59 | the top 4 bits of the payload are the unit's ordinal and the low 28 bits are the magnitude |
| Payload.Unpack | src/main.cpp:285-289 | `>> 28` and `& SIZE_MASK` give a 4-bit and a 28-bit field that together make up the whole payload |
| Payload.PackUnpack | src/ctl.cpp:58-59 | unpacking a packed payload recovers the unit and magnitude exactly, for every unit and every magnitude below 2^28 |
| Payload.UnpackPack | src/main.cpp:285-289 | a payload whose unit bits name a unit is the packing of its own fields |
| Ctl.TooBig | src/ctl.cpp:50-52 | the mask test `(size & SIZE_MASK) != size` holds exactly for the magnitudes above 0x0FFFFFFF |
| Ctl.CtlMain | src/ctl.cpp:43-75 | "flush" raises SIGHUP; "resize" fails on an invalid spec, is refused when the magnitude exceeds 28 bits, and otherwise queues SIGUSR1 whose payload unpacks to the spec's unit and magnitude; any other command sends nothing |
| Ctl.ResizeQueued | src/ctl.cpp:49-72 | every valid spec with a magnitude that fits 28 bits is queued with the packed payload |
| StreamBuffer.Buffer.constructor | src/buffer.cpp:24-27 | a new buffer holds `sz` zero bytes of storage and an empty fill |
| StreamBuffer.Buffer.Left | src/buffer.cpp:28 | the free room plus the buffered bytes is the capacity |
| StreamBuffer.Buffer.Size | src/buffer.cpp:29 | the number of buffered bytes, never above capacity |
| StreamBuffer.Buffer.Full | src/buffer.cpp:30-33 | full exactly when the buffered bytes fill the capacity, that is when no room is left |
| StreamBuffer.Buffer.Head | src/buffer.cpp:34 | the write position is just past the buffered bytes |
| StreamBuffer.Buffer.Grow | src/buffer.cpp:45 | the level rises by exactly `n`; the invariant holds afterwards exactly when `n` was within `left()`, and then the bytes at `head()` become the newest contents |
| StreamBuffer.Buffer.Drain | src/buffer.cpp:35-44 | returns exactly the buffered bytes, in order, and leaves an empty, zeroed buffer of the same capacity |
| StreamBuffer.Buffer.Resize | src/buffer.cpp:46-55 | returns the old capacity and installs `n` zero bytes, leaving the level alone; the invariant survives exactly when the old level fits in `n` |
| StreamBuffer.DrainTwice | src/buffer.cpp:35-44 | a second drain returns nothing, and the capacity never changes |
| StreamBuffer.FillThenDrain | src/buffer.cpp:34-45 | bytes written at `head()`, grown over and drained, come back after the old contents, exactly |
| Records.LittleEndian | src/main.cpp:296 | the magnitude is copied into the record as four bytes |
| Records.FromLittleEndian | src/main.cpp:214-215 | reading four bytes back as a `uint32_t` inverts the copy |
| Records.LittleEndianRoundTrip | src/main.cpp:214-215 | decoding the four bytes of a magnitude gives back the magnitude |
| Records.ReadPacket | src/main.cpp:203 | a read from the packet-mode command pipe returns exactly the first packet's first min(n, packet length) bytes, drops the rest of that packet, and consumes it |
| Records.ReadBody | src/main.cpp:210-211 | the Resize body is always five bytes: the first five of the packet read, padded with the array's zeros when it is shorter, and all zeros when the pipe is empty; it consumes one packet |
| Records.DecodeCommand | src/main.cpp:202-215 | the first byte of the first packet (0 when it is empty) selects the command: 0 Nop, 1 Flush, 2 Resize, above 2 Unknown with that byte; a Resize takes two packets (the second, when at least five bytes, gives the unit byte and the little-endian magnitude), every other record exactly one, and an empty pipe none |
| Records.CommandTags | src/main.cpp:89-93 | the `Commands` values as the engine reads them: tag 0, and an empty read, are Nop; 1 is Flush; 2 is Resize with the next packet as its body; any other byte is an unknown command |
| Records.EncodeSignal | src/main.cpp:281-303 | every signal produces at least one non-empty packet |
| Records.DecodeEncode | src/main.cpp:202-215 | decoding the record a signal produces gives its command, leaving exactly what followed it in the pipe |
| Listener.Listen | src/main.cpp:267-304 | the listener writes at most two packets per wake, and the first packet it writes is always a one-byte tag |
| Listener.ChannelRoundTrip | src/main.cpp:267-304 | decoding everything the listener wrote gives the commands of the caught signals in order; wait results 0 and -1 write nothing, and a terminating signal is the last one handled |
| Listener.ReceiveCommands | src/main.cpp:255-305 | the loop writes exactly the listener's record sequence and sets the sentinel exactly when a terminating signal arrives |
| EngineSpec.Init | src/main.cpp:175 | the engine starts running with an empty buffer and nothing written |
| EngineSpec.StreamData | src/main.cpp:99-134 | `stream_data` loses no byte: the sink and buffer together grow by what was read, the sink is only appended to, the result is -1 on error and the byte count otherwise, and the buffer is left empty on end of stream and never left full |
| EngineSpec.FlushBuffer | src/main.cpp:95-98 | a flush writes exactly the buffered bytes and empties the buffer, changing nothing else |
| EngineSpec.ApplyCommand | src/main.cpp:204-227 | Nop and unknown tags change nothing; Flush writes exactly the buffered bytes and empties the buffer; Resize does the same, then sets the capacity to magnitude times unit size modulo 2^64, or aborts, keeping the capacity, when the unit byte names no unit; the pipe is never touched |
| EngineSpec.Step | src/main.cpp:176-253 | every event keeps the buffer within its capacity, and a stopped engine holds nothing |
| EngineSpec.Run | src/main.cpp:176-230 | any run of events keeps the state valid |
| EngineSpec.StepConserves | src/main.cpp:95-253 | one event adds to sink followed by buffer exactly the bytes it read, and only appends to the sink |
| EngineSpec.NoDataLoss | src/main.cpp:95-253 | after any run of events, sink followed by buffer is the initial state plus all bytes read, and the sink was only appended to |
| EngineSpec.StoppedEngineDeliveredAll | src/main.cpp:197-199 | once the engine has stopped, its sink holds exactly all bytes read |
| EngineSpec.StoppedIsFinal | src/main.cpp:197-199 | a stopped engine accepts no more bytes and changes nothing |
| EngineSpec.FullBufferIsFlushed | src/main.cpp:118-123 | a read that fills the buffer writes exactly `capacity` bytes, the old contents then the new, and empties it |
| EngineSpec.PartialReadIsBuffered | src/main.cpp:118-133 | a read that leaves room only appends to the buffer and writes nothing |
| EngineSpec.SourceEndFlushes | src/main.cpp:106-116 | end of stream and a read error both write out what is buffered and stop the engine, with result 0 and -1 |
| EngineSpec.WaitOutcomesIgnored | src/main.cpp:180-193 | a failed or empty `epoll_wait` changes nothing |
| EngineSpec.HangupFlushes | src/main.cpp:205-207 | the Flush record writes exactly what is buffered and keeps the capacity |
| EngineSpec.User1Resizes | src/main.cpp:208-222 | the Resize record writes the buffered bytes first, then sets the capacity to magnitude times unit size in 64 bits, with the buffer empty |
| EngineSpec.User1BadUnitAborts | src/main.cpp:217-220 | a Resize record with an unknown unit still writes the buffered bytes, then the lookup aborts the process |
| EngineSpec.NopChangesNothing | src/main.cpp:224-226 | a Nop or unknown tag consumes its packet and nothing else |
| EngineSpec.ZeroCapacityStopsAtNextRead | src/main.cpp:104-111 | with capacity 0 the next read stops the engine |
| EngineSpec.ShutdownDrains | src/main.cpp:232-253 | the shutdown pass writes everything buffered, plus whatever the last non-blocking read returned, and empties the buffer |
| Engine.ReadInto | src/main.cpp:104 | the bytes read land at `head()` and the buffered bytes are untouched |
| Engine.StreamData | src/main.cpp:99-134 | the imperative `stream_data` on a `Buffer` leaves exactly the buffer, sink and result of the state machine's `stream_data`, keeping the capacity |
| Engine.HandleCommand | src/main.cpp:201-227 | the imperative command branch leaves exactly the capacity, buffer, sink and pipe of the state machine's step, and aborts exactly when the step does |
| Engine.HandleEvent | src/main.cpp:195-229 | one ready event handled on a `Buffer` leaves exactly the capacity, buffer, sink, pipe and phase of the state machine's step |
| Engine.BufferLoop | src/main.cpp:175-253 | the imperative loop ends with the sink and phase of the state machine's run; once it has stopped, the sink holds exactly all bytes read |
| Scenarios.Delivered | src/ctl.cpp:43-72 | a flush delivers SIGHUP, a queued resize delivers SIGUSR1 carrying the payload unchanged, and every other outcome delivers nothing |
| Scenarios.ResizeEndToEnd | src/ctl.cpp:45-72 | a resize queued by the controller makes the engine write out its buffer and take the capacity `parse_buffer_size` gives for the same spec |
| Scenarios.FlushEndToEnd | src/ctl.cpp:43-44 | `flush` always delivers SIGHUP, whatever the rest of the command line, and its record makes the engine write exactly what is buffered and keep its capacity |
| Scenarios.FillScenario | src/main.cpp:104-123 | capacity 8: 5 bytes stay buffered, the 3 that fill the buffer are written with them, and 1 more stays buffered |
| Scenarios.FlushScenario | src/main.cpp:205-207 | capacity 8, 3 bytes buffered: a flush writes those 3 and keeps capacity 8 |
| Scenarios.Resize16Queued | src/ctl.cpp:45-72 | "resize 16" queues the payload for 16 B, and "16" is 16 bytes |
| Scenarios.ResizeScenario | src/main.cpp:208-222 | 3 bytes buffered, resize to "16": the 3 bytes are written first and the capacity becomes 16 with the buffer empty |
| Scenarios.EofScenario | src/main.cpp:106-111 | end of stream with 2 bytes buffered writes them once and stops the engine for good |

## Left out

- Line mode (`get_line` and the delimiter flush): `Buffer::get_line` is declared and called but its definition is not part of this model, so only the non-line engine is modelled.
- Command-line handling of both programs (`help_or_version`, the option scan, the man page, version output) and all logging: user interface and I/O. The controller's `argc < 3` exit and its unchecked `argv[3]` are outside `Ctl.CtlMain`.
- epoll setup, `fcntl`, `pipe2`, `pthread_sigmask`, `sigwaitinfo`, `kill`, `sigqueue` and the two threads with their atomic sentinel: OS calls and concurrency. They become events (`EngineSpec.Event`, `Listener.Wake`), the pipe becomes a packet sequence consumed by one thread, and a `Shutdown` event stands for the loop seeing the sentinel.
- Engine.StreamData: does not model the `kill(getpid(), SIGQUIT)` on end of stream and on error, because its only effect is on the listener thread, whose shutdown is an input here.
- Partial writes: `flush` ignores the result of `write`, and every write is taken as complete.
- `std::vector` capacity slack, and allocation failure on a huge resize: the capacity is exactly the size asked for.
- Host byte order of the magnitude's `memcpy`: little-endian is fixed, since only the round trip within one process matters.
- The engine's several events per `epoll_wait` are modelled as one event at a time, in the order they are handled.
- Records.ReadBody: a read of an empty command pipe blocks in the code until the listener writes; the model returns nothing and pads with zeros instead. This only arises for a pipe the listener cannot write, such as a lone Resize tag, because the listener writes tag and body back to back.
- Engine.BufferLoop: an event list ending while the engine is still running says nothing about later behaviour; the loop would keep waiting.
