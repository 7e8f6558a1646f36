# A verified model of deerquic's sans-IO core

deerquic is a QUIC (RFC 9000, RFC 9001) implementation whose connection logic does no input or
output of its own: a caller feeds datagrams to `ingest`, asks `egest` for the next packet, and
moves application bytes with `send_data` and `recv_data`. This project models that core in Dafny
and proves what it keeps.

## How the model is built

The four layers of the code are four layers here. In each, the imperative code of the source is a
method that works the same way (a cursor that advances, a buffer that is appended to, a header
array that is filled in place, an object whose fields are updated), proved against a function that
says what it computes; the laws are lemmas about those functions.

| layer | functions | methods | laws |
|---|---|---|---|
| varints, frames, headers | `VarInt`, `Frames`, `FramePieces`, `Packets` | `VarInt`, `FrameCodec`, `PacketCodec` | `VarInt`, `FrameFormat`, `FrameLaws`, `FramePieces`, `HeaderFormat`, `PacketLaws`, `Bits` |
| packet numbers | `Packets` | `PacketCodec` | `PacketLaws`, `PacketNumbers` |
| packet protection | `Protection`, `Integrity` | `Sealing` | `PacketFormat`, `ProtectionLaws`, `Integrity` |
| connections | `Tls`, `Connections`, `Runs`, `Egress` | `Endpoint` | `Answers`, `Closing`, `Lifecycle`, `Egress`, `KeyDiscipline`, `HandshakeStreams`, `Handshakes`, `Acknowledgements`, `Delivery`, `StreamLink`, `Establishment`, `Completion`, `TwoEndpoints` |

`Bytes` and `Wrappers` hold bytes, big-endian numbers, exclusive or, and result types.

Two libraries are oracles. A key pair (`Protection.DirectionalKeys`) is a seal function, an open
function and a mask function; `Protection.Opens` says that what one side seals the other opens and
that both derive the same masks, and nothing else is assumed about the mask. A TLS session
(`Tls.Session`) is a deterministic machine given by what it accepts and what it writes after each
history of reads and writes; the history is also the log of the bytes that crossed each level.

## What is proved

- **Formats.** What is on the wire is stated a second time, with every code, bit and position as a
  literal: the bytes of all twenty frame types, what the parser makes of each type behind any encoding
  of its integers, and what it refuses; every field of long and short headers on any bytes; every
  byte of a sealed packet, and of what is uncovered when one is opened. Two consequences: no frame is
  the beginning of another (cut short, it is refused, unless it is a STREAM frame that runs to the end
  of its packet), and the Length field of every packet that is built counts exactly the bytes behind
  it. `Answers` does the same for the calls: `recv_data` returns the received bytes in order and each
  once, whatever the buffers; errors and return values of `ingest`, `egest` and `accept` are given
  case by case.
- **Codec.** Decoding an encoded varint gives it back whatever follows, and no shorter length
  holds the value; the shifts and masks of the source compute this base-256 arithmetic. A frame
  list followed by any number of zero bytes is read back as the list and that many PADDING frames
  exactly when each frame is recoverable where it stands (an ACK starts with gap 0, a connection ID
  has 1 to 20 bytes, an empty STREAM frame has nothing behind it). A frame that cannot be written
  leaves exactly the bytes before its first integer without a varint. Long headers come back exactly
  when they are readable, short headers exactly for packet-number lengths one to three.
- **Packet numbers.** Recovery undoes truncation exactly for the numbers in the window (or in the
  first block, where nothing below zero could be meant); it agrees with appendix A.3 of RFC 9000
  exactly while the appendix's 62-bit guard stays silent. A run of packets, with any loss and
  reordering, is numbered by the receiver as by the sender if and only if each number is
  distinguishable on arrival; a lossless run of any length always is.
- **Protection.** A sealed packet opens to the same number and frames followed only by PADDING,
  although sender and receiver compute offsets by different code, for any mask, in all long forms
  and for all four short packet-number lengths. `ingest` looks at a short header before its
  protection is removed: it accepts the packet exactly when the mask leaves the two reserved bits
  alone and does not turn the length bits to zero. The size of every packet is given as a
  number; a padded Initial has 1201 to 1205 bytes, or 1200 from the builder of `handshake.rs`.
- **Whole runs of a connection.** The state only moves forward, closed connections stay closed for a
  reason, keys stay in place, each space uses consecutive packet numbers, HANDSHAKE_DONE is framed
  at most once and only by a server. TLS is fed exactly a prefix of the peer's CRYPTO stream under
  any loss, repetition and reordering. Handshake output is conserved. Draining makes exactly as
  many packets as there is work, at most four, and leaves nothing to send, exactly when the sizes
  of these packets fit the buffer. The frames behind a CONNECTION_CLOSE reopen the connection
  exactly under a condition on its state at the close.
- **Two connections.** The server's TLS reads the ClientHello that the client's TLS wrote, byte for
  byte. The handshake completes: for TLS libraries that follow the flights of TLS 1.3, the packet of
  `connect`, three packets of the server and two of the client, delivered in order, leave both sides
  established with matching keys, each library having read exactly the other's bytes. From there, and
  from any runs of `connect` and `accept` that get as far, if the application packets of one side are
  ingested in order and with success, bytes read, buffered, in flight and pending are together, in
  this order, the bytes given to `send_data`, and the STREAM offsets tile the stream from 0. If every
  datagram that opens is one that the peer sealed, who is established holds 1-RTT keys.

Where the code does not do what one might expect, the model keeps the code as it is, gives the
condition, and where it helps an instance: `FrameLaws.TypeCheckNeverFires` and
`FrameLaws.LongTypeMisread`, `PacketLaws.ShortHeaderRoundTrip`, `PacketNumbers.LateIsMisread`,
`ProtectionLaws.ShortAcceptance`, `ProtectionLaws.OffsetIsRight` and
`ProtectionLaws.LongLengthMisplaced` (the packet number is looked for at the wrong place behind a
token or a Length that is not written in its shortest form), `Closing.CloseStays`,
`Closing.ClosingPacket` and `Closing.CloseUndone` (frames behind a CONNECTION_CLOSE are still
processed, and can reopen the connection within the packet that closed it), `Egress.TooSmallLoses`
(a packet that does not fit the caller's buffer is lost with all its data),
`KeyDiscipline.FrameReplaces` and `KeyDiscipline.KeysOverwritten` (1-RTT keys that are in place can
be replaced), `TwoEndpoints.FrameKeyed` and `TwoEndpoints.ForgedDone` (a HANDSHAKE_DONE is taken at
any level),
`Acknowledgements.AckExact` (one range is as long as the pending list, so it is exact only without
duplicates and gaps).

## Model

| member | source | states |
|---|---|---|
| VarInt.DecodeMeaning | src/varint.rs:78-137 | `decode` succeeds if and only if the bytes its tag announces are there; the value is their big-endian number without the tag, at most 2^62-1 |
| VarInt.RoundTrip | src/varint.rs:39-137 | decoding an encoding gives the value and its length, whatever follows |
| VarInt.ShortestForm | src/varint.rs:29-36 | no encoding of a value is shorter than `encoded_len` of it, so re-encoding never grows |
| VarInt.EncodingFormat | src/varint.rs:39-75 | the four lengths as numbers: tag 0, 1, 2 or 3 in the top two bits of 1, 2, 4 or 8 bytes, the value behind it |
| VarInt.DecodingFormat | src/varint.rs:78-137 | what each first byte announces, the value, and the error with needed and present bytes |
| VarInt.Encode | src/varint.rs:39-75 | writes exactly the encoding at its place, or nothing and the right error |
| VarInt.PutVarint | src/varint.rs:140-148 | appends exactly the encoding, or nothing and the error |
| Bits.EncodingIsBase256 | src/varint.rs:51-73 | the shifts and masks of `encode` write the tag and the base-256 digits |
| Bits.DecodingIsBase256 | src/varint.rs:86-136 | the shifts and masks of `decode` compute the base-256 number behind the tag, in all four lengths |
| Bits.FirstByteFields | src/packet.rs:144-160 | the bit tests and shifts on a first byte cut out the fields the model computes by division |
| Bits.LongFirstBits | src/packet.rs:409-412 | the first byte of a long header as the source ors it together |
| Bits.ShortFirstBits | src/packet.rs:446-449 | the first byte of a short header; a packet-number length of four lands on the key-phase bit |
| Bits.CandidateBits | src/packet.rs:376-380 | the masked candidate of packet-number recovery is the window-aligned sum |
| FrameCodec.Cursor.ReadVarint | src/frame.rs:564-568 | reads the varint at the cursor and advances past it, or leaves the cursor alone |
| FrameCodec.Cursor.ReadBytes | src/frame.rs:570-580 | takes that many bytes and advances, or reports the underflow |
| FrameCodec.Cursor.ReadAck | src/frame.rs:193-227 | the range loop reads the ranges the wire format has, the first with gap 0 |
| FrameCodec.ParseFrame | src/frame.rs:173-362 | returns the frame at the front and exactly the bytes it takes, for all twenty types and all errors |
| FrameCodec.ReadFrames | src/connection.rs:779-785 | the receive loop ends and returns the frames of the whole plaintext, or the first error |
| FrameCodec.WriteAck | src/frame.rs:376-406 | the outcome and the buffer of writing counts, ranges and ECN counts in order, up to an integer without a varint |
| FrameCodec.WriteFrame | src/frame.rs:367-548 | succeeds if and only if every integer of the frame fits a varint; the error and the bytes left behind are those of the first that does not |
| FrameCodec.WriteFrames | src/connection.rs:613-616 | serialises a frame list; on a failure the outcome and the buffer are those of the first frame that cannot be written |
| FramePieces.FrameWritten | src/frame.rs:367-548 | writing a frame puts all its bytes in the buffer, or exactly those before the first integer without a varint, which the error names |
| FrameLaws.FrameBack | src/frame.rs:173-548 | a recoverable frame is read back from its bytes, whatever follows |
| FrameLaws.FrameRoundTrip | src/frame.rs:173-548 | a writable frame comes back unchanged if and only if it is recoverable where it stands |
| FrameLaws.LostFrame | src/frame.rs:201-206 | an unrecoverable frame never comes back as itself: a first gap is read as 0, an empty STREAM frame swallows what follows |
| FrameLaws.ListRoundTrip | src/connection.rs:779-785 | a list with any padding is read back as the list and that many PADDING frames, if and only if each frame is recoverable in place |
| FrameLaws.FrameImage | src/frame.rs:173-362 | every frame the parser returns, on any bytes, is well formed; at least one byte is consumed |
| FrameLaws.Canonical | src/frame.rs:173-548 | rewriting a parsed frame gives bytes that parse to the same frame and are used up |
| FrameLaws.TypeCheckNeverFires | src/frame.rs:179-181 | the error for a non-minimal type is never returned, on any bytes |
| FrameLaws.LongTypeMisread | src/frame.rs:179-185 | every type in every long encoding is accepted with one byte skipped; the rest of the type is read as the body, or as further frames |
| FrameLaws.WireTail | src/frame.rs:367-548 | the bytes of a frame do not depend on what follows it |
| FrameFormat.IntegersWritten | src/frame.rs:17-40 | codes and field order of RESET_STREAM, STOP_SENDING, MAX_DATA, MAX_STREAM_DATA, MAX_STREAMS, DATA_BLOCKED, STREAM_DATA_BLOCKED, STREAMS_BLOCKED and RETIRE_CONNECTION_ID, as literals |
| FrameFormat.BytesWritten | src/frame.rs:17-40 | the same for CRYPTO (0x06), NEW_TOKEN (0x07), PATH_CHALLENGE, PATH_RESPONSE and both CONNECTION_CLOSE frames |
| FrameFormat.BareWritten | src/frame.rs:367-375 | PADDING, PING and HANDSHAKE_DONE are one byte: 0x00, 0x01, 0x1e |
| FrameFormat.StreamWritten | src/frame.rs:434-463 | the eight STREAM types, one by one, with the fields each carries |
| FrameFormat.AckWritten | src/frame.rs:376-406 | ACK is 0x02, or 0x03 with ECN counts; largest, delay, count less one, first range, then gap and range of each |
| FrameFormat.NewConnectionIdWritten | src/frame.rs:500-512 | NEW_CONNECTION_ID is 0x18, sequence, Retire Prior To, length byte, ID and token |
| FrameFormat.IntegerRead | src/frame.rs:275-325 | which frame each code with one integer is read as, in any encoding of the integer |
| FrameFormat.IntegersRead | src/frame.rs:229-297 | the same for the codes with two or three integers |
| FrameFormat.BytesRead | src/frame.rs:188-355 | the same for the codes with bytes, or with nothing |
| FrameFormat.StreamToEndRead | src/frame.rs:249-273 | STREAM types without a length take everything to the end of the packet; without an offset the offset is 0 |
| FrameFormat.StreamRead | src/frame.rs:249-273 | STREAM types with a length take that many bytes |
| FrameFormat.AckRead | src/frame.rs:193-227 | 0x02 is read as an ACK without ECN counts, with a first gap of 0 and the announced number of further ranges |
| FrameFormat.AckEcnRead | src/frame.rs:193-227 | 0x03 is read as an ACK with the three ECN counts behind its ranges |
| FrameFormat.NewConnectionIdRead | src/frame.rs:303-320 | 0x18 is read for ID lengths 1 to 20 and refused as such a length exactly otherwise; a cut ID or token is an underflow |
| FrameFormat.UnknownRefused | src/frame.rs:357-357 | a type is refused as unknown if and only if its low eight bits exceed 0x1e; other frames are refused only for their fields |
| FrameFormat.ShortRefused | src/frame.rs:570-605 | bytes that stop short of their announced length are an underflow of that length |
| FrameFormat.ShortStreamRefused | src/frame.rs:258-259 | so is stream data that stops short of its length |
| FrameFormat.FirstErrorWins | src/connection.rs:779-785 | behind any frames, bytes that are no frame decide the outcome of the whole packet |
| FrameFormat.ReadIsLocal | src/frame.rs:173-362 | what is read at the front of any bytes stays the same when bytes follow, unless it is a STREAM frame without a length |
| FrameFormat.CutShortRefused | src/frame.rs:173-362 | a frame cut short at any place is refused, unless it is such a STREAM frame |
| PacketLaws.DecodeIsClosest | src/packet.rs:375-391 | the recovered number has the truncated bytes, and no number with these bytes is closer to the next expected one |
| PacketLaws.DecodeInBlock | src/packet.rs:375-391 | the recovered number lies in the window, unless only a number beyond it is non-negative |
| PacketLaws.DecodeInverts | src/packet.rs:375-391 | recovery undoes truncation if and only if the number is in the window, or in the first block above it |
| PacketLaws.DecodeIsAppendixA3 | src/packet.rs:375-391 | equals appendix A.3 of RFC 9000 if and only if the appendix's guard against 2^62 does not fire |
| PacketLaws.DecodeAgainstZero | src/connection.rs:760-762 | against largest = 0 exactly the numbers that fit their bytes come back |
| PacketLaws.LongHeaderBack | src/packet.rs:138-264 | a numbered long header is read back under any change of its four low bits |
| PacketLaws.LongHeaderRoundTrip | src/packet.rs:138-440 | `parse_long_header` inverts `write_long_header`, Retry and Version Negotiation included, up to the zeroed packet number, if and only if the header is readable |
| PacketLaws.LongHeaderImage | src/packet.rs:138-309 | every header the parser returns is readable |
| PacketLaws.ShortHeaderRoundTrip | src/packet.rs:312-458 | `parse_short_header` inverts `write_short_header` if and only if the packet-number length, of any byte, is one to three; zero and four are refused |
| PacketLaws.HeaderWritersAgree | src/connection.rs:897-934 | the header bytes `encrypt_long` seals are those of `write_long_header` with the placeholder overwritten by the packet number |
| HeaderFormat.LongFormRefused | src/packet.rs:138-183 | which bytes are no long header, in the order of the checks: empty, form bit, five bytes, fixed bit |
| HeaderFormat.IdsRefused | src/packet.rs:185-213 | which connection IDs are refused: a length byte above 20, or too few bytes |
| HeaderFormat.LongFields | src/packet.rs:64-264 | type bits 0, 1, 2, 3 are Initial, 0-RTT, Handshake, Retry; where version, IDs, token, Length and packet number stand in any accepted bytes, and the error when one is missing |
| HeaderFormat.VersionNegotiationFields | src/packet.rs:267-309 | version 0 is Version Negotiation whatever the first byte; positions of its IDs and its refusals |
| HeaderFormat.LongWritten | src/packet.rs:406-440 | the bytes of a long header, its type bits 0 to 3 and all positions as literals |
| HeaderFormat.ShortRefused | src/packet.rs:316-345 | which first bytes are no short header |
| HeaderFormat.ShortFields | src/packet.rs:312-366 | spin bit, key phase, ID and packet number of any other bytes, and the error when one is missing |
| HeaderFormat.ShortWritten | src/packet.rs:443-458 | the bytes of a short header with one to three bytes of packet number, its flags as literals |
| PacketCodec.ParseLongHeader | src/packet.rs:138-264 | steps through a long header and returns it and the bytes read, or the error of the first field that fails |
| PacketCodec.ReadVersionNegotiation | src/packet.rs:267-309 | reads a Version Negotiation header |
| PacketCodec.ParseShortHeader | src/packet.rs:312-366 | steps through a short header and returns it and the bytes read, or the error |
| PacketCodec.WriteLongHeader | src/packet.rs:406-440 | appends the header's bytes if and only if its integers can be encoded |
| PacketCodec.WriteShortHeader | src/packet.rs:443-458 | appends the short header's bytes |
| PacketCodec.WritePn | src/connection.rs:1062-1082 | overwrites the packet-number bytes, big-endian, and nothing else; other lengths than one to four write nothing |
| Packets.ReadTruncated | src/connection.rs:1084-1092 | reading back a written packet number gives it modulo the window |
| PacketNumbers.RestoredIff | src/connection.rs:1051-1092 | a number survives truncation and recovery if and only if it is distinguishable on arrival |
| PacketNumbers.RecoveredIff | src/connection.rs:824-826 | a whole run is numbered by the receiver as by the sender if and only if each number is distinguishable when it arrives |
| PacketNumbers.NearRecovered | src/connection.rs:824-826 | loss and reordering of up to 127 numbers never desynchronise, at any encoding length |
| PacketNumbers.NeverDesynchronised | src/space.rs:60-79 | a lossless run of any length, through all encodings, is numbered as it was sent |
| PacketNumbers.LateIsMisread | src/packet.rs:382-391 | an instance outside the window: 10 arriving after 200 is taken for 266 |
| ProtectionLaws.UnprotectInverts | src/connection.rs:727-826 | the receiver, assuming four packet-number bytes, finds the sender's sample and restores number bytes, associated data and sealed text |
| ProtectionLaws.OpenInverts | src/connection.rs:727-848 | a sealed payload opens to its number and frames when recovery finds the number |
| ProtectionLaws.PaddedBack | src/connection.rs:619-642 | the padding of a packet is read back as PADDING frames behind its frames |
| ProtectionLaws.LongRoundTrip | src/connection.rs:727-960 | a long packet is parsed, its packet number located, and opened to its number and frames followed by PADDING, for any mask and all three levels |
| ProtectionLaws.ProtectedLongHeader | src/connection.rs:852-861 | behind every header this code seals the receiver finds the packet number, by fields that are not protected |
| ProtectionLaws.OffsetIsRight | src/connection.rs:852-861 | on any numbered header the parser accepts, the receiver looks for the packet number where the parser read it if and only if the token is empty in one byte and the Length is in its shortest form |
| ProtectionLaws.LongLengthMisplaced | src/connection.rs:852-861 | an instance: Length 20 in two bytes moves the packet number to 9, and the receiver looks at 8 |
| ProtectionLaws.ShortRoundTrip | src/connection.rs:791-1002 | a short packet of every packet-number length opens to its number and frames when the number is in the window |
| ProtectionLaws.ShortAcceptance | src/connection.rs:250-256 | the header check on a still protected short packet passes if and only if the mask keeps the reserved bits clear and the length bits non-zero |
| ProtectionLaws.SealsUnlessRefused | src/connection.rs:638-642 | the padding always leaves a sample: a packet is sealed if and only if its Length can be encoded and the cipher agrees |
| ProtectionLaws.PacketSize | src/connection.rs:593-663 | the size of every sealed packet, long or short, from the length of its frames, the connection IDs and the packet-number length |
| ProtectionLaws.InitialSize | src/connection.rs:619-636 | an Initial has at least 1200 bytes; a padded one 1200 plus its packet number, plus one if its Length field grew |
| ProtectionLaws.FirstInitialIsSealed | src/connection.rs:1006-1047 | `build_initial_packet` makes the packet that `encrypt_packet` would make of the same ClientHello |
| ProtectionLaws.ReservedInitialShape | src/handshake.rs:73-163 | the other builder refuses exactly the payloads whose Length needs more than two bytes; when it pads, the packet has exactly 1200 bytes |
| PacketFormat.LongPacket | src/connection.rs:881-960 | every byte of a sealed long packet: first byte 0xc0 with the type of the level and the number length, version, IDs, token length 0, Length, number, sealed text, and what the mask covers |
| PacketFormat.LengthIsRight | src/connection.rs:903-903 | in every long packet of `egest`, in the client's first packet and in the Initial of `handshake.rs`, Length counts the bytes from the packet number to the end |
| PacketFormat.ShortPacket | src/connection.rs:962-1002 | every byte of a sealed short packet, and what the mask covers |
| PacketFormat.ShortFirstByteIs | src/connection.rs:661-661 | under its mask the first byte of an application packet is 0x40 and the number length, 0 for four: spin, reserved and key-phase bits are clear |
| PacketFormat.SealRefusals | src/connection.rs:593-663 | a packet with a frame that cannot be written is a frame error; every other failure is INTERNAL_ERROR, 0x01 |
| PacketFormat.PnLengths | src/connection.rs:1051-1060 | one byte of packet number below 256, two below 65536, four beyond |
| PacketFormat.Uncovered | src/connection.rs:743-772 | what removing protection gives, byte for byte: the mask of the sample four bytes behind the number covers four or five bits of the first byte and the number bytes it announces |
| PacketFormat.OpenMeans | src/connection.rs:743-848 | opening uses that number and associated data; a refused text is PROTOCOL_VIOLATION, 0x0a, and one that is no frame list a frame error |
| Sealing.EncryptLong | src/connection.rs:881-960 | filling the header array, sealing and masking in place gives the long packet of the model |
| Sealing.EncryptShort | src/connection.rs:962-1002 | the same for short packets |
| Sealing.EncryptPacket | src/connection.rs:593-663 | serialising, padding and sealing gives the packet of the model, or its error |
| Sealing.BuildInitialPacket | src/connection.rs:1006-1047 | builds the client's first packet |
| Sealing.BuildAndProtectInitial | src/handshake.rs:73-163 | builds the Initial with two bytes set aside for Length |
| Sealing.OpenInPlace | src/connection.rs:727-848 | removing protection, rebuilding the associated data, decrypting and parsing gives what the model opens |
| Sealing.DecryptAndParseLong | src/connection.rs:714-788 | the long receive path, with its length check |
| Sealing.DecryptAndParse | src/connection.rs:791-848 | the short receive path, which needs the sample to be there |
| Integrity.CallMade | src/connection.rs:936-942 | a packet ends with what the cipher made of one text, number and associated data |
| Integrity.ArrivalIsCall | src/connection.rs:760-785 | what arrives is what the opened text says: its level, its number and its frames |
| Integrity.HonestLong | src/connection.rs:727-960 | a peer's long packet is opened by the very call that sealed it |
| Integrity.HonestShort | src/connection.rs:791-1002 | so is a peer's short packet in the window that passes the header check |
| Connections.Max | src/connection.rs:340-340 | the largest pending number is in the list and above all others |
| Endpoint.Space.NextSendPn | src/space.rs:60-64 | hands out the next number and moves on by one |
| Endpoint.Space.RecordRecvPn | src/space.rs:75-82 | raises the largest number and queues the ACK |
| Endpoint.Space.TakePendingAcks | src/space.rs:84-86 | returns the pending numbers and leaves none |
| Endpoint.Connection.SendData | src/connection.rs:435-437 | queues the bytes behind those pending |
| Endpoint.Connection.RecvData | src/connection.rs:440-445 | copies as many received bytes as fit to the front of the buffer and forgets exactly those |
| Answers.ReadTakesFront | src/connection.rs:440-445 | a read returns the shorter of what is there and what fits, from the front, and forgets exactly that |
| Answers.ReadsInOrder | src/connection.rs:440-445 | any sequence of reads returns the received bytes in order, each once, as many as there is room for |
| Answers.EverythingRead | src/connection.rs:440-445 | enough reads into any non-empty buffers return everything that was received |
| Endpoint.Connection.ProcessCrypto | src/connection.rs:477-494 | only CRYPTO data that continues the stream reaches TLS; the offset moves once its output is handled |
| Endpoint.Connection.HandleCryptoOutput | src/connection.rs:520-588 | buffers output, installs keys once per space and asks TLS again at the next level |
| Endpoint.Connection.ProcessFrames | src/connection.rs:463-517 | the frame loop in order, up to the first frame TLS refuses |
| Endpoint.Connection.Receive | src/connection.rs:250-283 | picks header form, space and offset, and opens the packet |
| Endpoint.Connection.Ingest | src/connection.rs:241-295 | the whole new state and result of feeding one datagram |
| Endpoint.Connection.TakeFrames | src/connection.rs:330-375 | the frames that wait at a level, in order, and the state without them |
| Endpoint.Connection.MakePacket | src/connection.rs:322-394 | nothing without keys or frames; otherwise the next number is used and the packet sealed |
| Endpoint.Connection.Egest | src/connection.rs:300-404 | the first space with something to say fills the buffer; what does not fit is dropped, and the rest of the buffer is untouched |
| Endpoint.Connection.FlushEgress | src/runtime.rs:218-229 | the drain loop ends, and sends exactly the packets of the model's loop |
| Endpoint.Connection.Connect | src/connection.rs:82-136 | a client whose ClientHello is in the returned packet and whose number 0 is used |
| Endpoint.Connection.ExtractHello | src/connection.rs:164-171 | collects the CRYPTO data at offset 0 |
| Endpoint.Connection.Accept | src/connection.rs:144-236 | a server fed with the ClientHello, or the error of the first step that fails |
| Answers.IngestAnswers | src/connection.rs:241-295 | what `ingest` returns: closed, nothing to do, the error that left the connection alone, all bytes, or the refusal of TLS |
| Answers.IngestLeaves | src/connection.rs:285-294 | a received datagram leaves its number recorded and its frames processed up to a refusal, and a refusal takes nothing back |
| Answers.FramesInOrder | src/connection.rs:470-516 | processing a list is processing its parts one after the other, and nothing behind a refused frame |
| Answers.ReceiveAnswers | src/connection.rs:250-283 | which space a datagram is opened in, by its first byte, and its refusals: Retry and Version Negotiation are 0x0a, missing keys 0x01, a bad header a packet error |
| Answers.SampleMissing | src/connection.rs:802-804 | exactly which datagrams the source would panic on: an accepted short header whose sample lies beyond the end |
| Answers.CloseAnswered | src/error.rs:34-57 | the close reason is the peer's code for 0 to 0x11 and 0x100 to 0x1ff, and INTERNAL_ERROR for all others |
| Answers.CryptoAnswered | src/connection.rs:477-494 | CRYPTO data out of order changes nothing; refused data changes only TLS; accepted data moves the offset by its length |
| Answers.OthersAnswered | src/connection.rs:470-514 | stream data is received whatever its stream and offset, HANDSHAKE_DONE establishes a client only, and all other frames change nothing |
| Answers.OutputAnswered | src/connection.rs:520-588 | at which level TLS output waits, which keys are installed where, and when the connection is established |
| Answers.LargestOfAll | src/space.rs:75-82 | after any packets the largest number is the largest that arrived, and those to acknowledge are all that arrived, in order |
| Answers.DepartsFrom | src/connection.rs:322-400 | the next packet leaves the lowest level that has keys and something pending, and none leaves exactly when there is no such level; what it takes is no longer pending |
| Answers.DepartsSealed | src/connection.rs:382-394 | the packet is those frames sealed with the space's keys and next number, in the short form if and only if the connection was established before they were taken, or the error of sealing |
| Answers.PacketFrames | src/connection.rs:328-375 | the frames of a packet and their order: CRYPTO at offset 0, one ACK range down from the largest number, HANDSHAKE_DONE, STREAM 0 |
| Answers.EgestAnswers | src/connection.rs:300-404 | what `egest` returns: closed, nothing, the whole packet or the error of sealing it |
| Answers.HelloParts | src/connection.rs:164-171 | the ClientHello is the CRYPTO data at offset 0 in order, and no other frame adds to it |
| Answers.AcceptRefusals | src/connection.rs:144-181 | `accept` fails with the header, the opening or the TLS refusal, and on nothing else |
| Answers.AcceptedServer | src/connection.rs:173-236 | the server's IDs, version, keys, numbers and waiting TLS output, field by field |
| Answers.ConnectedClient | src/connection.rs:82-136 | a client is of version 1, has used number 0 of its Initial space and holds nothing yet |
| Runs.PaddedProcess | src/connection.rs:472-474 | the padding of a packet changes neither state nor outcome of processing its frames |
| Closing.FrameState | src/connection.rs:470-517 | the state after any frame: closed by CONNECTION_CLOSE, established by the first 1-RTT keys or, at a client, HANDSHAKE_DONE, else unchanged |
| Closing.CloseStays | src/connection.rs:495-509 | frames behind a CONNECTION_CLOSE leave the connection closed if and only if they do not reopen it, a condition on its side, keys, receive offset and TLS at the close |
| Closing.ClosingPacket | src/connection.rs:241-295 | a datagram with a last CONNECTION_CLOSE leaves the connection closed if and only if the frames behind it do not reopen it in the state at the close |
| Closing.CloseUndone | src/connection.rs:495-509 | an instance, for any long datagram: close and HANDSHAKE_DONE in one packet leave a client established with a close reason |
| Lifecycle.RunProgress | src/connection.rs:241-404 | over any run the state rank never falls, closed stays closed and has a reason, keys never leave a space, numbers are not taken back |
| Lifecycle.RunNumbers | src/space.rs:60-64 | over any run a space uses consecutive packet numbers, each once, also for packets that were not sent |
| Lifecycle.HandshakeDoneOnce | src/connection.rs:353-359 | HANDSHAKE_DONE is framed at most once in a run and never by a client |
| Lifecycle.OnePacketLess | src/connection.rs:300-404 | each call makes one packet of the work that is left, and none exactly when there is none |
| Lifecycle.DrainTerminates | src/connection.rs:300-404 | draining makes exactly the packets of the work, at most four, and leaves nothing to send in any keyed space |
| Egress.EgestReturns | src/connection.rs:382-400 | what a call returns is a whole packet; it is empty if and only if there was none or it did not fit |
| Egress.TooSmallLoses | src/connection.rs:394-397 | a packet that does not fit is lost with its CRYPTO bytes, its ACK and its stream bytes |
| Egress.FlushDrains | src/runtime.rs:218-229 | the loop sends all the work if and only if every packet is sealed and fits, and then leaves nothing to send |
| Egress.WaitingSizeIs | src/connection.rs:328-375 | the bytes of the frames that wait, as a number |
| Egress.NextPacket | src/connection.rs:382-400 | with a cipher that refuses nothing, the next packet is sealed if and only if its integers can be encoded, and its size is a number |
| Egress.FlushDrainsBySize | src/runtime.rs:218-229 | the loop sends all the work if and only if the sizes of its packets are no larger than the buffer |
| KeyDiscipline.KeysNeverReplaced | src/connection.rs:520-588 | with a TLS that hands out keys twice, installed keys stay the same in every run |
| KeyDiscipline.FrameReplaces | src/connection.rs:562-582 | for any TLS, a frame changes keys that are in place if and only if they are 1-RTT keys and it is accepted Handshake CRYPTO data answered with keys, and with different keys again |
| KeyDiscipline.KeysOverwritten | src/connection.rs:579-581 | an instance: a TLS that always hands out the same keys overwrites others |
| KeyDiscipline.StartsDisciplined | src/connection.rs:82-236 | `connect` and `accept` install keys only as TLS hands them out |
| KeyDiscipline.ReceiveHasKeys | src/connection.rs:714-800 | a datagram is opened only in a space that has keys |
| HandshakeStreams.FedInOrder | src/connection.rs:477-494 | under any loss, repetition and reordering TLS is fed exactly the prefix of the peer's CRYPTO stream that the receive offset says |
| HandshakeStreams.OutputConserved | src/connection.rs:520-588 | over any run the bytes TLS wrote at a level are those framed so far followed by those pending |
| HandshakeStreams.WaitingCrypto | src/connection.rs:330-336 | a packet takes all pending CRYPTO bytes of its level and no others |
| Handshakes.ClientHelloArrives | src/connection.rs:144-236 | the server accepts the client's first packet if and only if its TLS accepts the ClientHello, and TLS has then been fed it byte for byte |
| Handshakes.AcceptFeeds | src/connection.rs:173-214 | after `accept` no output of TLS is lost, and TLS was fed what the packet carried at offset 0 |
| Handshakes.ConnectConserves | src/connection.rs:98-136 | after `connect` the ClientHello is framed and nothing else was written |
| Acknowledgements.AckExact | src/connection.rs:338-351 | the ACK names exactly the pending numbers if and only if none is pending twice and none in between is missing |
| Acknowledgements.EachAckedOnce | src/space.rs:75-86 | in a run that receives a space's packets consecutively, its ACKs name each exactly once and in order, and acknowledge, as section 19.3.1 of RFC 9000 reads them, exactly these numbers |
| Acknowledgements.NamedMeans | src/connection.rs:338-351 | the numbers a one-range ACK names are those the RFC assigns to it |
| Acknowledgements.ClientStartsInLine | src/connection.rs:111-113 | a new client has received nothing and starts such a run |
| Acknowledgements.ServerStartsInLine | src/connection.rs:216-217 | an accepted connection counts the client's packet as number 0 and starts such a run |
| Delivery.WaitingRoundTrip | src/connection.rs:328-375 | every frame list `egest` builds is read back, with its padding |
| Delivery.LongReceived | src/connection.rs:258-283 | a peer's long packet is received in its space with its number and frames, for any mask |
| Delivery.ShortReceived | src/connection.rs:251-256 | a peer's short packet in the window is received with its number and frames if and only if its mask passes the header check |
| Delivery.NextPacketReceived | src/connection.rs:241-404 | what one connection's `egest` makes in any space, the other's `ingest` receives: a long packet below 2^32 always, a short one in the window if and only if its mask passes, and it is refused otherwise |
| StreamLink.WaitingStream | src/connection.rs:361-375 | an application packet carries all pending bytes in at most one STREAM frame |
| StreamLink.StreamConserved | src/connection.rs:361-512 | in every run of two joined connections bytes read, buffered, in flight and pending are the bytes sent, and the STREAM frames tile the stream |
| StreamLink.JoinedExists | src/connection.rs:50-75 | any two matching key pairs have established connections at which the conservation law starts, so it is not empty |
| StreamLink.LinkStarts | src/connection.rs:435-445 | two joined connections with nothing in flight are where such runs start; what was queued or received before counts as sent |
| Establishment.RunsJoin | src/connection.rs:82-404 | any two runs from new connections that end established, with matching keys and at most the first application packet used, end joined, and all that was given to `send_data` is pending |
| Establishment.ClientToServer | src/connection.rs:82-512 | the stream law from `connect` to `accept`: the bytes at the end are those given to `send_data` in all the runs |
| Establishment.ServerToClient | src/connection.rs:82-512 | the stream law from `accept` to `connect`, whose first application packet is the long one with HANDSHAKE_DONE |
| Completion.HandshakeCompletes | src/connection.rs:82-588 | for TLS libraries that follow TLS 1.3, the packets of the handshake delivered in order leave both sides established and joined in both directions, each library having read exactly the other's bytes |
| Completion.FlightsSealed | src/connection.rs:300-404 | with ciphers that refuse nothing these packets are sealed if and only if their lengths can be encoded |
| Completion.AgreedPossible | src/connection.rs:477-588 | for any flights and matching keys there are such libraries |
| TwoEndpoints.FrameKeyed | src/connection.rs:506-509 | a frame establishes an endpoint without 1-RTT keys if and only if it is a HANDSHAKE_DONE that reaches a client before them |
| TwoEndpoints.EstablishedHasKeys | src/connection.rs:353-565 | under any schedule in which every datagram that opens is one the peer sealed, who is established holds 1-RTT keys |
| TwoEndpoints.HonestIsFair | src/connection.rs:241-404 | delivering a peer's next packet satisfies that condition |
| TwoEndpoints.ForgedDone | src/connection.rs:506-509 | an instance: any datagram sealed with the Initial keys that carries a HANDSHAKE_DONE establishes a client that has no 1-RTT keys |
| TwoEndpoints.PairStarts | src/connection.rs:82-236 | `connect` and `accept` start such schedules |

## Left out

- Endpoint.Connection.Ingest: requires the header-protection sample of a short packet to be there, because the source slices it unchecked (src/connection.rs:804) and panics otherwise.
- FrameCodec.WriteFrame: requires a non-empty range list for ACK, because the source slices the list behind its first range (src/frame.rs:396) and panics otherwise.
- KeyDiscipline.KeysNeverReplaced: assumes that TLS hands out keys twice; what happens without that is stated by KeyDiscipline.FrameReplaces.
- Sealing.EncryptLong: sealed text too short for a sample is an error here and a slice panic in the source (src/connection.rs:946); ProtectionLaws.SealsUnlessRefused shows that the padding rules it out.
- Sealing.EncryptShort: the same, at src/connection.rs:988.
- PacketCodec.WriteLongHeader: requires a packet-number length other than zero, on which the source underflows (src/packet.rs:412).
- TwoEndpoints.EstablishedHasKeys: the integrity of the cipher is a condition on the schedule, that a delivered datagram opens only to a text the peer sealed; its cryptographic strength is not modelled.
- StreamLink.StreamConserved: covers runs in which application packets arrive in order, once and with success; the code ignores STREAM offsets and does not retransmit.
- Completion.HandshakeCompletes: covers the five deliveries in order, without loss; the code does not retransmit handshake data.
- Integer widths: packet numbers, offsets and lengths are unbounded, so overflow beyond 2^64 is not modelled; truncation to 8 and 32 bits is.
- Sockets, polling, timers, the receive clock, random connection IDs, key derivation, certificate checks and the TLS and AEAD internals: parameters or oracles. The cipher's failures are one outcome; header protection cannot fail once its sample has the right length.
- Payloads of error values (needed and actual lengths) and the wrapping of lower errors: errors are told apart by their kind.
- The capacity of `BufMut` targets, and the allocation the ACK parser makes for the announced range count: the buffers and lists of the model grow without limit.
- Loss detection, retransmission, flow and congestion control, key update, coalesced datagrams, Initial tokens, and the handling of Retry and Version Negotiation: the connection does not implement them; the last two are covered in the header codec.
- The token length argument and the short-header estimate of `encrypt_packet` (src/connection.rs:619-628): the first is always zero and the second never used.
- Getters such as `is_established`, and the Display texts of errors: they return a field or a fixed text, and no property of the protocol depends on them.
