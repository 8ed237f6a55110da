# Verified models of the PX4 host tools

This project models the byte-stream and protocol logic of the Python tools that ship beside the PX4 autopilot, and
proves what they promise. It is plain Dafny 4.11; `dafny verify dfyconfig.toml` checks all of it.

**Log streaming.** `Tools/mavlink_ulog_streaming.py` rebuilds a ULog file from numbered chunks that may be lost,
repeated or reordered. `UlogReceiver` is the receiver object, `UlogWriter` the sender on the autopilot
(`src/modules/logger/log_writer_mavlink.cpp`), `UlogStream` the relation between the two: messages, the places where the
byte stream was cut into chunks, and the offset of the first message in each chunk. `UlogAcceptance` proves which
packets the receiver accepts, for any first counter. `UlogReassembly` and `UlogSession` prove the receiver against the
stream relation for every loss pattern; `UlogEndToEnd` joins sender, network and receiver, so that the truth of the
offsets is a theorem about the sender and not an assumption. A session is a sequence of turns of the main loop: a data
packet, a command acknowledgement or nothing, and whether the start deadline has passed. `UlogTurns` says exactly which
turns end a session and that all others leave it as its data packets alone would. `UlogReliable` says which chunks the
sender wants acknowledged, and `UlogRecords` states the results for lists of message types and payloads as they are
printed, so that no result rests on how the model reads a length. Two details of the code show in the statements: the
last complete message can stay in `ulog_message` (nothing flushes it when logging stops), and the dropout record of a
gap is written before a message that was complete in the buffer when the gap was noticed.

**MAVLink 1 framing.** `MavlinkCodec` packs and decodes frames over a message table and an arbitrary 16-bit checksum
function (the repository does not contain `x25crc`); fields are raw words of fixed width. `MavlinkTable` is the message
table of `Tools/mavlink_px4.py`. `MavlinkParser` is the incremental parser, `MavlinkStream` whole transmissions,
`MavlinkLink` the object with its mutable buffer and counters, in the robust mode and in the mode that raises.

**Firmware upload.** `Crc32` and `Firmware` model the table-driven CRC and the image padding, `Bootloader` the other side
of the serial port: either a conforming bootloader with its flash, or a device that answers anything at any time.
`UploadTrace`, `UploadSteps`, `UploadProgram`, `UploadExchange`, `UploadSession` and `UploadInspect` describe exchanges on
values; `Uploader` is the object. Every method carries two kinds of promises: what the log of writes and reads can look like
whatever is connected, and what a conforming bootloader ends up with. Deadlines are numbers of attempts.

**Smaller tools.** `EventMessage` and `ArgumentSplit` model `Tools/px4events/srcparser.py`, `KconfigDiff` models
`Tools/kconfig/diffconfig.py`, `Resampler` one function of `Tools/process_sensor_caldata.py` over the reals, and
`OutputGroups` the channel grouping of `Tools/module_config/output_groups_from_timer_config.py`.

Properties that turned out not to hold in general are kept with the condition under which they do, and with an input at
which they fail:

- `EventMessage.RenderPrepended` and `EventMessage.ZeroCaptured`: a placeholder numbered below the first argument is
  captured by a prepended one.
- `ArgumentSplit.LiteralCloses`, `ArgumentSplit.UnclosedSplits` and `ArgumentSplit.BackslashSwallows`: a string literal that
  ends with an escaped backslash is not seen to end. When no quote follows it, the split is still right if and only if the
  literal is in the last argument.
- `KconfigDiff.DiffIsPatch`, `KconfigDiff.EmptyValueLost` and `KconfigDiff.ValueMisread`: an option whose new value is empty
  is not printed, and a value that ends with " is not set" is read back as a second line would be.
- `Firmware.CoversExactly` and `Firmware.CoversTooMuch`: the padded CRC covers whole words only.
- `UlogSequence.AgreesWithSerialArithmetic`, `UlogSequence.ForwardWindow` and `UlogSequence.HalfAheadRejected`: numbers
  exactly half the space apart.

The help text of `diffconfig.py` promises sorted output; the code sorts each of its three sections by itself, and the
model follows the code. `__verify_multi` ends a mismatch with a type error in its own diagnostic message and not with the
intended exception; the model names either one `VerificationFailed`.

Lemmas carry `{:induction false}`: where an induction is needed it is written out.

## Model

| member | source | states |
|---|---|---|
| UlogFormat.SplitConserves | Tools/mavlink_ulog_streaming.py:224-233 | the written messages followed by the remainder are the input, byte for byte |
| UlogFormat.SplitRecords | Tools/mavlink_ulog_streaming.py:224-233 | every input is split into printed messages (16-bit payload length, low byte first, type, payload) and a remainder with no printed message at its front |
| UlogFormat.SplitUnique | Tools/mavlink_ulog_streaming.py:224-233 | there is only one decomposition into whole messages and an incomplete remainder, and it is the one found |
| UlogFormat.SplitPrinted | Tools/mavlink_ulog_streaming.py:224-233 | any list of types and payloads, printed and followed by such a remainder, is split into exactly these messages and this remainder |
| UlogFormat.WholeIsFramed | Tools/mavlink_ulog_streaming.py:224-233 | the length test accepts exactly the printed messages |
| UlogFormat.SplitStreaming | Tools/mavlink_ulog_streaming.py:224-233 | processing a ++ b writes the same and leaves the same as processing a and then remainder ++ b |
| UlogSequence.AgreesWithSerialArithmetic | Tools/mavlink_ulog_streaming.py:171-186 | "newer" is the serial order of section 3.2 of RFC 1982 wherever that is defined and the larger number where it is not; of two distinct numbers exactly one is newer; the drop count is the number of numbers in between, and 0 for one that is not newer |
| UlogSequence.TracksCounter | Tools/mavlink_ulog_streaming.py:171-186 | for unbounded sender counters within 32767 of each other, a number is accepted if and only if its counter is larger, and the drop count is the number of counters in between |
| UlogSequence.ForwardWindow | Tools/mavlink_ulog_streaming.py:171-186 | the exact set of forward gaps that are told apart from stale numbers |
| UlogSequence.HalfAheadRejected | Tools/mavlink_ulog_streaming.py:171-186 | the failing input: from 0x8000, the number half the space ahead across the wrap is taken for a stale one |
| UlogReceiver.MavlinkLogStreaming.constructor | Tools/mavlink_ulog_streaming.py:36-55 | the initial state: nothing received, no sequence number |
| UlogReceiver.MavlinkLogStreaming.WriteUlogMessages | Tools/mavlink_ulog_streaming.py:224-233 | the in-place loop appends exactly the whole messages of the data to the file and returns the unique remainder |
| UlogReceiver.MavlinkLogStreaming.ProcessStreamedUlogData | Tools/mavlink_ulog_streaming.py:189-221 | the whole new state for every chunk, offset and drop count; fails, changing nothing, exactly when the header is missing and the chunk is shorter than 16 bytes |
| UlogReceiver.MavlinkLogStreaming.ReadMessage | Tools/mavlink_ulog_streaming.py:121-168 | state and result for every packet: command acknowledgements, acknowledged and plain data, and the two ways of stopping |
| UlogReceiver.MavlinkLogStreaming.ReadMessages | Tools/mavlink_ulog_streaming.py:77-118 | the main loop computes the run of the state machine over any turns, up to the one that ends it: a refused start, an accepted stop, a first chunk that is too short, or the start deadline |
| UlogReceiver.ResumeAfterGap | Tools/mavlink_ulog_streaming.py:204-221 | resuming after a gap is absorbing the chunk from its first message start with an empty buffer |
| UlogReceiver.DropoutRecord | Tools/mavlink_ulog_streaming.py:198-202 | the record of a gap is a printed message of type `O` whose 16-bit value is ten milliseconds for each lost chunk, up to 250 |
| UlogReceiver.StoppedStays | Tools/mavlink_ulog_streaming.py:77-118 | once stopped, later turns change nothing |
| UlogAcceptance.AcceptanceTheorem | Tools/mavlink_ulog_streaming.py:143-186 | for any data packets with any first counter, each counter within 32767 of the highest before it: the run goes on, the receiver holds the highest counter modulo 2^16, drops plus accepted packets equal the highest counter minus the first plus one, and every reliable packet was acknowledged; a first packet shorter than the header ends the run |
| UlogAcceptance.AcceptedByReceiver | Tools/mavlink_ulog_streaming.py:143-186 | the receiver hands a packet on if and only if its counter is above all before it, with exactly the number of counters skipped |
| UlogAcceptance.NeverTwice | Tools/mavlink_ulog_streaming.py:143-186 | a packet handed on has a larger counter than every packet before it |
| UlogTurns.TurnsTheorem | Tools/mavlink_ulog_streaming.py:77-141 | a run goes on if and only if no turn disturbs it: no accepted stop, no refused start before the header section, no deadline before the start is seen; it then does what its data packets alone do, and the started flag is set exactly when an acknowledgement or a plain data packet set it |
| UlogTurns.StopTheorem | Tools/mavlink_ulog_streaming.py:130-141 | an accepted stop ends the session in the state it was in, and nothing after it is looked at |
| UlogTurns.EndTheorem | Tools/mavlink_ulog_streaming.py:77-141 | the first turn that disturbs a session ends it for its own reason: completed, refused with that result, or overdue |
| UlogReassembly.AbsorbStep | Tools/mavlink_ulog_streaming.py:212-221 | the reassembly invariant is kept by a chunk that follows without a gap, however messages and length bytes are cut |
| UlogReassembly.GapStep | Tools/mavlink_ulog_streaming.py:198-210 | the invariant is kept over any run of lost chunks: the unfinished message is dropped, a finished one is written |
| UlogSession.SessionTheorem | Tools/mavlink_ulog_streaming.py:77-233 | for every message list, chunking and pattern of loss, repetition and reordering, interleaved with any turns that do not end the session: the file is the header and whole records; without dropout notes these are, in order, exactly the messages all of whose chunks arrived, the last one possibly still complete in the buffer; every note stands where its gap is, at the message it cuts off or the first one behind it; drops plus accepted chunks equal the highest counter plus one; every reliable chunk was acknowledged |
| UlogSession.CompleteSession | Tools/mavlink_ulog_streaming.py:77-233 | the same for a session ended by an accepted stop, whatever follows it |
| UlogSession.AcceptanceInTurns | Tools/mavlink_ulog_streaming.py:77-186 | the count of drops and accepted packets holds for interleaved turns, with any first counter |
| UlogWriter.LogWriterMavlink.StartLog | src/modules/logger/log_writer_mavlink.cpp:65-80 | the state of a session that has sent nothing |
| UlogWriter.StoppedIsSilent | src/modules/logger/log_writer_mavlink.cpp:82-128 | after a stop nothing is sent and nothing is kept, whatever is written, until the next start |
| UlogWriter.LogWriterMavlink.PublishMessage | src/modules/logger/log_writer_mavlink.cpp:130-185 | one chunk goes out with the current number and offset; a missing acknowledgement ends the session |
| UlogWriter.LogWriterMavlink.WriteMessage | src/modules/logger/log_writer_mavlink.cpp:88-116 | the copy loop over the fixed buffer computes the specified filling and publishing, and reports whether the session goes on |
| UlogWriter.LogWriterMavlink.SetNeedReliableTransfer | src/modules/logger/log_writer_mavlink.cpp:118-128 | leaving reliable mode publishes what is buffered first |
| UlogWriter.PublishStep | src/modules/logger/log_writer_mavlink.cpp:130-185 | publishing cuts the stream at the current position with a truthful first-message offset |
| UlogWriter.WriteKeeps | src/modules/logger/log_writer_mavlink.cpp:88-116 | writing a message adds it to the stream and nothing else, however often the buffer fills up |
| UlogWriter.SetReliableKeeps | src/modules/logger/log_writer_mavlink.cpp:118-128 | changing the mode leaves the stream content as it is |
| UlogWriter.SenderTheorem | src/modules/logger/log_writer_mavlink.cpp:65-185 | the chunks of any session are a cutting of header and messages into pieces under 255 bytes, numbered from 0 modulo 2^16, with truthful offsets |
| UlogReliable.ChunkTheorem | src/modules/logger/log_writer_mavlink.cpp:88-185 | every chunk goes out with exactly one operation; it asks for an acknowledgement if and only if the mode in force before that operation was the reliable one; it has 249 bytes, unless it is flushed by leaving that mode |
| UlogReliable.SessionEnds | src/modules/logger/log_writer_mavlink.cpp:130-185 | the session goes on if and only if every acknowledgement asked for came, and otherwise ended at the first one that did not; what was sent and what is buffered is everything written, or the beginning of it |
| UlogReliable.ReliablePart | src/modules/logger/log_writer_mavlink.cpp:118-185 | what is written in reliable mode before the first switch to plain mode travels in chunks that ask for an acknowledgement, and all of it has gone out when the switch is made |
| UlogEndToEnd.EndToEnd | Tools/mavlink_ulog_streaming.py:77-233 | whatever the sender writes, the network loses, repeats or reorders within the window, and the turns in between acknowledge, the receiver's file satisfies the session theorem for the sender's own messages |
| UlogRecords.RecordsTheorem | Tools/mavlink_ulog_streaming.py:77-233 | the session theorem for a list of types and payloads: the file is the header and printed records, which are the delivered ones and a type `O` record for each noted gap |
| UlogRecords.EndToEndRecords | Tools/mavlink_ulog_streaming.py:77-233 | the same from the sender to the file: what the sender accepts is a list of printed records, and these are recovered |
| UlogEndToEnd.LosslessTheorem | Tools/mavlink_ulog_streaming.py:77-233 | when every chunk arrives in order, in any interleaving with turns that do not end the session, file ++ buffer is everything sent so far after every chunk, the file ends on a message boundary, and the buffer is a prefix of the next message |
| MavlinkTable.TableUndoesOrder | Tools/mavlink_px4.py:2115-2200 | for every fixed-arity message of the table the order map inverts the order in which its constructor packs, and the payload length fits one byte |
| MavlinkCodec.UnpackPacked | Tools/mavlink_px4.py:2361-2366 | unpacking the packed fields of a message type gives the fields back |
| MavlinkCodec.PackedUnpack | Tools/mavlink_px4.py:2361-2366 | packing the unpacked payload gives the payload back |
| MavlinkCodec.EncodeParts | Tools/mavlink_px4.py:101-111 | a packed frame byte by byte: 254, payload length, number, system, component and id, the payload, and low byte first the checksum of everything after the marker followed by the seed of the message |
| MavlinkCodec.EncodedField | Tools/mavlink_px4.py:101-111 | each wire field holds the argument that the table names for it, at the offset that the table gives |
| MavlinkCodec.DecodeEncode | Tools/mavlink_px4.py:101-111 | decoding undoes packing for every message that fits its type, including the field order map |
| MavlinkCodec.EncodeDecode | Tools/mavlink_px4.py:2332-2388 | a frame is accepted only if it is exactly what its message packs to |
| MavlinkCodec.AcceptedExactly | Tools/mavlink_px4.py:2332-2388 | a frame is accepted if and only if marker, length, id, checksum with the seed, and payload size are right |
| MavlinkCodec.RejectedFor | Tools/mavlink_px4.py:2332-2366 | a rejected frame gets the reason of the first check that fails |
| MavlinkCodec.DecodedField | Tools/mavlink_px4.py:2361-2373 | each argument is the wire field that the order map names for it |
| MavlinkParser.RobustStep | Tools/mavlink_px4.py:2274-2317 | one robust call takes exactly one piece off the front, whatever the stale expected length, and counts it once |
| MavlinkParser.DrainAppend | Tools/mavlink_px4.py:2319-2330 | draining a ++ b is draining a and then its rest ++ b |
| MavlinkParser.ChunkingIndependence | Tools/mavlink_px4.py:2274-2330 | feeding a byte stream in any portions gives the same messages, counters and leftover buffer as feeding it whole |
| MavlinkParser.Conservation | Tools/mavlink_px4.py:2274-2317 | at every point of every run the raw bytes of the returned messages followed by the buffer are all bytes received, and each returned message is counted once |
| MavlinkParser.PacedStep | Tools/mavlink_px4.py:2267-2317 | a portion of at most `bytes_needed` keeps the parser paced, and a decoded frame leaves nothing behind it |
| MavlinkParser.NoOvershoot | Tools/mavlink_px4.py:2267-2317 | over whole runs a reader that supplies at most `bytes_needed` bytes never buffers anything past the frame being read, even after junk |
| MavlinkParser.TwoReads | Tools/mavlink_px4.py:2267-2317 | from an empty buffer, two reads of exactly `bytes_needed` bring in one frame: six bytes, and the rest of it |
| MavlinkStream.StreamRoundTrip | Tools/mavlink_px4.py:2274-2388 | messages separated by junk without the marker come back exactly and in order, with one bad-data report for each junk byte and an empty buffer, for every cutting of the stream |
| MavlinkStream.SendAllNumbers | Tools/mavlink_px4.py:2259-2265 | the n-th message sent carries sequence number n mod 255, and the counters count messages and bytes |
| MavlinkStream.SentIsReceived | Tools/mavlink_px4.py:2259-2330 | a sender's whole output, cut in any way, is received as the sent messages in order with their numbers |
| MavlinkLink.MavLink.constructor | Tools/mavlink_px4.py:2231-2252 | the initial parser and sender |
| MavlinkLink.MavLink.SendMessage | Tools/mavlink_px4.py:2259-2265 | the packed frame is appended to the output and the number advances modulo 255 |
| MavlinkLink.MavLink.BytesToRead | Tools/mavlink_px4.py:2267-2272 | what is missing to the expected length, and at least one byte |
| MavlinkLink.MavLink.Reorder | Tools/mavlink_px4.py:2368-2373 | the permutation loop puts every field at its constructor position |
| MavlinkLink.MavLink.DecodeFrame | Tools/mavlink_px4.py:2332-2388 | every rejection and the decoded message, as the specification of `decode` |
| MavlinkLink.MavLink.ParseBytes | Tools/mavlink_px4.py:2274-2317 | the whole new parser state and result, in robust and in raising mode |
| MavlinkLink.MavLink.ParseFrame | Tools/mavlink_px4.py:2300-2316 | taking the complete frame at the front of the buffer |
| MavlinkLink.PullIsFeed | Tools/mavlink_px4.py:2319-2330 | in robust mode the drain loop takes out everything that can be taken out and never raises |
| MavlinkLink.PullUpToBad | Tools/mavlink_px4.py:2319-2330 | in raising mode it takes out exactly the messages before the first piece of bad data, drops that piece, raises its reason unless it follows junk already complained about, and leaves everything behind it buffered |
| MavlinkLink.MavLink.ParseBuffer | Tools/mavlink_px4.py:2319-2330 | the drain loop ends in both modes; robust: it returns every message of the buffer and leaves a parser that waits for more bytes; raising: as `PullUpToBad`, and the messages taken out before an exception are not returned |
| Crc32.TableIsBitwise | Tools/px_uploader.py:95-127 | each of the 256 table entries is eight bit steps of the reflected polynomial 0xEDB88320 |
| Crc32.StepIsBitwise | Tools/px_uploader.py:146-150 | one table step is eight bit steps, for every state and byte |
| Crc32.BitwiseAppend | Tools/px_uploader.py:146-150 | the CRC of a concatenation continues from the CRC of its first part |
| Firmware.PadImage | Tools/px_uploader.py:139-141 | the loop extends the image with 0xff to the next multiple of four bytes |
| Firmware.Crc | Tools/px_uploader.py:146-150 | the table-driven byte loop computes the bit-by-bit CRC |
| Firmware.PaddedCrc | Tools/px_uploader.py:152-156 | the result is the bit-by-bit CRC of the image followed by 0xff up to the covered length |
| Firmware.CoversExactly | Tools/px_uploader.py:152-156 | exactly `padlen` bytes are covered if and only if whole words fill the difference, and how many are covered for every other remainder |
| Firmware.CoversTooMuch | Tools/px_uploader.py:152-156 | the failing input: an image of 4 bytes and a flash of 6 are covered as 8 bytes |
| UploadTrace.SplitLenJoins | Tools/px_uploader.py:485-486 | the blocks joined are the image, each has 1 to 252 bytes in whole words, and all but the last have 252 |
| UploadTrace.ProgramTraceBytes | Tools/px_uploader.py:489-517 | in either mode the same commands are written, and exactly one INSYNC/OK pair per block is consumed |
| Uploader.Uploader.constructor | Tools/px_uploader.py:208-225 | a new session with an empty window |
| UploadSteps.GetListens | Tools/px_uploader.py:264-269 | a read takes at most the requested bytes off the front of what has arrived, loses nothing, and is all that is logged |
| Uploader.Uploader.RecvInt | Tools/px_uploader.py:271-274 | the little-endian word read, or the error for no byte or too few |
| Bootloader.LowByteFirst | Tools/px_uploader.py:271-274 | the number read is the first byte plus 256 times the second, and so on |
| Uploader.Uploader.GetSync | Tools/px_uploader.py:276-288 | success exactly for INSYNC and OK, and which error for any other answer |
| UploadSteps.SyncReads | Tools/px_uploader.py:276-288 | one byte is read and, only after 0x12, another one; 0x12 and 0x10 are success, and each other pair is its own error |
| Uploader.CheckAcks | Tools/px_uploader.py:298-306 | a window is accepted if and only if it is INSYNC/OK pairs throughout |
| Uploader.Uploader.AckSyncWindow | Tools/px_uploader.py:293-306 | success means the whole window of acknowledgements was read, and a conforming bootloader's answers always succeed |
| Uploader.Uploader.Sync | Tools/px_uploader.py:309-316 | a conforming bootloader is synchronised with whatever input is still pending |
| Uploader.Uploader.TrySync | Tools/px_uploader.py:318-337 | in sync, not yet, or a silicon revision that is not supported |
| UploadExchange.TrySyncReads | Tools/px_uploader.py:318-337 | an attempt is in sync for 0x12 and 0x10, unsupported for 0x12 and 0x14, and undecided for anything else |
| Uploader.Uploader.GetInfo | Tools/px_uploader.py:363-367 | the value the device reported is returned, and a conforming bootloader reports its own |
| Uploader.Uploader.Identify | Tools/px_uploader.py:557-570 | success means revision 2 to 5 and fields equal to what was reported; neither erase nor reboot is sent; a conforming bootloader is identified correctly or rejected for its revision |
| Uploader.Uploader.Fetch | Tools/px_uploader.py:369-383 | a query for the one-time-programmable area or the serial number is harmless and leaves a conforming bootloader as it was |
| Uploader.Uploader.ReadOtp | Tools/px_uploader.py:589-593 | success means that the 48 words at addresses 0, 4, and so on were read in order and acknowledged; the loop is harmless, and a conforming bootloader answers |
| Uploader.Uploader.ShowSerial | Tools/px_uploader.py:602-622 | the serial number is asked for word by word at addresses 0, 4 and 8 and then the chip word, up to the first failure, which is ignored; all harmless |
| Uploader.Uploader.DescribeChip | Tools/px_uploader.py:392-399 | success means that the device reported this chip description last, and a conforming bootloader reports its own |
| UploadInspect.PiecesCount | Tools/px_uploader.py:398-399 | a description that is the comma-join of n comma-free parts counts as n |
| UploadInspect.PiecesExist | Tools/px_uploader.py:398-399 | every description is such a join of as many parts as are counted |
| Uploader.Uploader.CheckBoard | Tools/px_uploader.py:573-656 | nothing is sent on a wrong board or size, and which error is raised; otherwise only queries, and success means that the one-time-programmable area was read and the image passed every check with the chip the device reported; a conforming bootloader is unchanged and passes if and only if the image is suitable |
| Uploader.Uploader.Erase | Tools/px_uploader.py:411-434 | after the erase command the first decided attempt ends the waiting, with success for an acknowledgement and an error for bad silicon, and without one all attempts are made; a conforming bootloader is left blank |
| Uploader.Uploader.ProgramMulti | Tools/px_uploader.py:437-455 | one block keeps the programming invariant in both modes |
| Uploader.Uploader.Program | Tools/px_uploader.py:489-517 | for every device: neither erase nor reboot is sent, and success means exactly the blocks of the image were written and all acknowledgements consumed, with the window back at 0; a conforming bootloader holds the image |
| Uploader.Uploader.VerifyMulti | Tools/px_uploader.py:458-472 | a block counts as verified only if exactly its bytes were read back |
| Uploader.Uploader.VerifyV2 | Tools/px_uploader.py:520-534 | success means every block of the image was read back; a bootloader holding the image always succeeds and is unchanged |
| Uploader.Uploader.VerifyV3 | Tools/px_uploader.py:536-548 | success means the reported checksum is that of the padded image; a conforming bootloader succeeds if and only if its flash has that checksum |
| Uploader.Uploader.SetBootDelay | Tools/px_uploader.py:550-554 | success means that the delay command was acknowledged, and a conforming bootloader has stored that delay |
| Uploader.Uploader.Reboot | Tools/px_uploader.py:475-482 | before revision 3 exactly the reboot command; from revision 3 on, success means the command and its acknowledgement, and an error otherwise |
| Uploader.Uploader.Flash | Tools/px_uploader.py:657-670 | erase, program, verify, delay and reboot in this order, each only after the one before was acknowledged; success means exactly this trace, the acknowledgement of the reboot included |
| Uploader.Uploader.Upload | Tools/px_uploader.py:573-671 | in every run, failing ones included: nothing is sent on a wrong board or size, anything but queries is sent only after the image passed every check with the chip the device reported, and a reboot command only after a complete, verified upload; success means that the reboot was acknowledged where the revision answers; a conforming bootloader that does not suit the image keeps its flash, and one that does ends with the padded image followed by 0xff and the boot delay that was asked for |
| Uploader.Uploader.IdentifyAndUpload | Tools/px_uploader.py:852-880 | for a whole session starting from an unidentified board with any pending input: anything but queries is sent only to a board that reported the board type, revision and size with which the image passed the checks, a reboot command only after a complete, verified upload, and success means an acknowledged one; a conforming bootloader ends with the padded image followed by 0xff |
| UploadSession.RebootIsLast | Tools/px_uploader.py:657-670 | wherever a reboot command stands in the log, the complete upload stands right before it |
| UploadSession.FlashedCrc | Tools/px_uploader.py:536-548 | a flash holding the image and otherwise blank has the expected checksum when its size is a multiple of four |
| EventMessage.ShiftPrintedArguments | Tools/px4events/srcparser.py:42-57 | the rewriting loop ends although the text may grow, and shifts every placeholder |
| EventMessage.LexShifted | Tools/px4events/srcparser.py:42-57 | the meaning of the shifted text is the original meaning with every placeholder number raised, escapes and leading zeros included |
| EventMessage.LexComposed | Tools/px4events/srcparser.py:42-57 | a message composed of shown characters, escaped characters and numbered placeholders means exactly these parts |
| EventMessage.ShiftTwice | Tools/px4events/srcparser.py:42-57 | shifting by a and then by b is shifting by a + b |
| EventMessage.RenderPrepended | Tools/px4events/srcparser.py:59-69 | the shifted text with the prepended arguments prints what the original printed if and only if no placeholder below the first number is moved onto a prepended argument |
| EventMessage.ClearFromZero | Tools/px4events/srcparser.py:59-69 | with arguments numbered from 0 no placeholder is ever captured |
| EventMessage.ZeroCaptured | Tools/px4events/srcparser.py:42-57 | the failing input: with arguments numbered from 1, a placeholder 0 changes its meaning |
| EventMessage.RenderAppended | Tools/px4events/srcparser.py:71-72 | an appended argument fills the placeholders with the next number, and nothing else that is printed changes |
| EventMessage.Event.PrependArguments | Tools/px4events/srcparser.py:59-69 | the new arguments come first, both texts are shifted, and each still prints the same exactly when it is clear |
| ArgumentSplit.ParseArguments | Tools/px4events/srcparser.py:281-309 | the scanning loop computes the specified split |
| ArgumentSplit.StripPadded | Tools/px4events/srcparser.py:306-308 | stripping removes exactly the whitespace around a trimmed text |
| ArgumentSplit.LiteralCloses | Tools/px4events/srcparser.py:295-300 | the scanner leaves a string literal at its closing quote if and only if the literal does not end with an escaped backslash |
| ArgumentSplit.FeedPieces | Tools/px4events/srcparser.py:294-307 | nested brackets, commas in brackets and quoted text pass unsplit |
| ArgumentSplit.ParseJoined | Tools/px4events/srcparser.py:281-309 | splitting the comma-joined text of any arguments, padded with any whitespace, returns exactly the arguments |
| ArgumentSplit.BracketsHold | Tools/px4events/srcparser.py:301-307 | round, curly and square brackets hold everything between them together, commas included, and what follows the next comma is split as if it stood alone |
| ArgumentSplit.BlanksGo | Tools/px4events/srcparser.py:306-308 | blanks, tabs and line ends are stripped, and printing characters are not |
| ArgumentSplit.ParseUnclosed | Tools/px4events/srcparser.py:281-309 | when a literal of one argument ends with an escaped backslash and no quote follows it, the arguments before it are split as usual and everything from it to the end of the text is one piece |
| ArgumentSplit.UnclosedSplits | Tools/px4events/srcparser.py:281-309 | such a list is split right if and only if that argument is the last |
| ArgumentSplit.BackslashSwallows | Tools/px4events/srcparser.py:295-300 | the failing input: a string of one escaped backslash and a second argument come out as one piece |
| KconfigDiff.ReadConfig | Tools/kconfig/diffconfig.py:45-54 | the line loop builds the specified dictionary, or fails on the first CONFIG_ line without `=` |
| KconfigDiff.ReadTheorem | Tools/kconfig/diffconfig.py:45-54 | a dictionary that is read holds for every name what the last line assigning it says, and nothing else; a line assigns by `CONFIG_`, name, `=` and value, or by " is not set", which wins |
| KconfigDiff.ReadFails | Tools/kconfig/diffconfig.py:45-54 | reading fails if and only if some line begins with `CONFIG_` and has no `=` |
| KconfigDiff.ReadIsFromFile | Tools/kconfig/diffconfig.py:45-54 | in every dictionary that is read, a name with `=` in it has the value `n` |
| KconfigDiff.ReadPrinted | Tools/kconfig/diffconfig.py:56-68 | the line printed for a key reads back as its new value, and sets a second name to `n` exactly when that value ends with " is not set"; nothing is printed exactly for an empty one |
| KconfigDiff.SortSorts | Tools/kconfig/diffconfig.py:95-107 | sorting gives the same keys in code point order |
| KconfigDiff.LeIsLexicographic | Tools/kconfig/diffconfig.py:95-107 | the order: a prefix comes first, and otherwise the first difference decides |
| KconfigDiff.CollectRemoved | Tools/kconfig/diffconfig.py:91-94 | exactly the keys of the old file that the new one lacks, each once |
| KconfigDiff.CollectChanged | Tools/kconfig/diffconfig.py:101-106 | exactly the keys whose values differ, each once, and the equal ones deleted from the new dictionary |
| KconfigDiff.MergeDiff | Tools/kconfig/diffconfig.py:90-116 | the three passes print three sorted sections: removed, changed and added keys |
| KconfigDiff.DiffLines | Tools/kconfig/diffconfig.py:56-116 | a line is in the output if and only if it is the line, of this text, of an option that is removed, or that is added or changed and has a value that is not empty |
| KconfigDiff.DiffReadsBack | Tools/kconfig/diffconfig.py:45-116 | read back, the output gives every key that differs its new value and names no other, except where the value of a line that is not followed by the key's own line sets it to `n` |
| KconfigDiff.DiffIsPatch | Tools/kconfig/diffconfig.py:45-116 | laid over the old configuration the output gives the new one, absent options counting as `n`, if and only if no option becomes empty and none is set to `n` by another option's value that ends with " is not set"; without either it names exactly the keys that differ |
| KconfigDiff.DiffOfFiles | Tools/kconfig/diffconfig.py:45-116 | the same for any two files that can be read |
| KconfigDiff.EmptyValueLost | Tools/kconfig/diffconfig.py:56-68 | the failing input: nothing is printed for an option that becomes empty |
| KconfigDiff.ValueMisread | Tools/kconfig/diffconfig.py:45-54 | the failing input: the value `A is not set` of X undoes the line of A before it |
| KconfigDiff.PrintedLines | Tools/kconfig/diffconfig.py:48-49 | the last character of every line is dropped, whatever it is, so that printed lines are read as they are |
| Resampler.BinInRange | Tools/process_sensor_caldata.py:47-53 | every sample has a bin in range, also when all x are equal |
| Resampler.BinInterval | Tools/process_sensor_caldata.py:47-53 | bin k holds exactly the x from the k-th up to the next boundary, and the greatest x is in the last bin |
| Resampler.BinMonotone | Tools/process_sensor_caldata.py:47-53 | a greater x is never in a smaller bin |
| Resampler.MinMax | Tools/process_sensor_caldata.py:38-39 | the least and the greatest element |
| Resampler.Accumulate | Tools/process_sensor_caldata.py:47-56 | after the loop every bin holds the count and the totals of its samples; fails exactly when y is shorter than x |
| Resampler.Compact | Tools/process_sensor_caldata.py:58-64 | the means of the occupied bins, in bin order |
| Resampler.MeansConserve | Tools/process_sensor_caldata.py:47-64 | counts add up to the number of samples, and count-weighted means to the original total |
| Resampler.MeansSorted | Tools/process_sensor_caldata.py:47-66 | the means of x are strictly increasing |
| Resampler.ResampleWithDeltaX | Tools/process_sensor_caldata.py:37-66 | the error cases, and for every other input the means over 2000 intervals with all of the above |
| OutputGroups.RunsExpand | Tools/module_config/output_groups_from_timer_config.py:117 | expanding the runs gives the channel timer list back, and neighbouring runs differ |
| OutputGroups.RunsUnique | Tools/module_config/output_groups_from_timer_config.py:117 | they are the only such runs |
| OutputGroups.TimerGroupsExpand | Tools/module_config/output_groups_from_timer_config.py:114-121 | grouping succeeds exactly for a nonempty list of known timers, and the indices expand to that list |
| OutputGroups.GetOutputGroups | Tools/module_config/output_groups_from_timer_config.py:134-212 | success if and only if every group has channels and they are all PWM or all capture channels; the groups then cover the channels in order, when every channel has a type, with labels that continue that type's count; a failure is about the first group that cannot be made, for its own reason |
| OutputGroups.LabelsCount | Tools/module_config/output_groups_from_timer_config.py:134-212 | the groups partition the channels in order, and each channel's label number is one plus the number of earlier channels of its type |
| OutputGroups.LabelsUnique | Tools/module_config/output_groups_from_timer_config.py:134-212 | no two channels of one type have the same label |

## Left out

- Serial ports, sockets, sleeps, progress bars, signal handling, baud-rate switching, interface detection and port scanning: I/O and timing; a port is a pair of byte queues and a log.
- Uploader.Uploader.Erase: the 30 second deadline is a number of attempts.
- Uploader.Uploader.ReadOtp: the values of the one-time-programmable area, the serial number and the chip word are only printed, and are not kept.
- Uploader.Uploader.VerifyV3: says nothing about images whose checksum collides with that of another flash content.
- MavlinkTable: the two swarm messages with array formats (ids 61 and 63), whose order maps are shorter than their unpacked values, so that decoding them raises an index error.
- Typed field values, string termination, callbacks and the generated encode and send wrappers of `mavlink_px4.py`.
- UlogWriter.SenderTheorem: messages are handed over whole and the uORB queue between the sender and the MAVLink module is the network.
- UlogSession.SessionTheorem: arrivals stay within 32767 of the highest accepted counter, because outside that window 16-bit numbers do not determine the order, and start with chunk 0, which carries the header; `UlogAcceptance.AcceptanceTheorem` needs no such start.
- EventMessage.ShiftPrintedArguments: digits are the ASCII digits; other Unicode decimal digits are not recognised.
- ArgumentSplit.ParseJoined: brackets are counted and not matched by kind, as in the source.
- ArgumentSplit.UnclosedSplits: lists in which a quote follows the literal that is not seen to end; that quote ends it.
- The non-merge output style of `diffconfig.py`: an easy printer.
- Resampler.ResampleWithDeltaX: reals in place of floating point.
- OutputGroups.GetOutputGroups: parameter definitions, DShot options and label texts of the generated YAML.
- Source scanners, XML, Markdown and JSON output, kconfiglib merging, log analysis, cryptography and compression: text plumbing or calls into libraries.
- The flight-control modules: not part of this model.
