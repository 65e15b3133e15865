# Binary framing layer of cellnet's `util/packet.go`, modelled in Dafny

The model covers the wire-protocol core of the network framework: three framing
formats that share one stream abstraction, plus a UDP wrapper.

- **LTV.** A frame is `[u16 LE bodyLen][u16 LE msgID][payload]`. Here `bodyLen`
  counts the ID and the payload. `RecvLTVPacket` reads the frame and hands
  `(msgID, payload)` to the codec registry's decoder. `SendLTVPacket` encodes
  the message, or takes a `RawPacket` as it is, then builds the frame in one
  buffer, writes it in one call and frees pooled codec memory.
- **Mobile (MB).** The header is 8 bytes, with a u32 LE body length at offset 4.
  `RecvMbPacket` returns the header and the body verbatim.
  `SendMBPacket` writes the caller's bytes unchanged.
- **TkProxy.** The header is 24 bytes, with a u32 LE body length at offset 20.
  `RecvTkProxyPacket` returns header and body in one buffer. A header read cut
  short by the read deadline becomes the sentinel `ConServerMsgRecv{ErrNo: 1}`
  and no error. `SendTkProxyPacket` writes the caller's bytes unchanged.
- **UDP.** `RecvUDPPacket` wraps a datagram with no framing.

Files:

- `wire.dfy` (module `Wire`): octets, little-endian u16/u32 fields, and Go's
  truncating `uint16(...)` and `uint32(...)` conversions.
- `stream.dfy` (module `Stream`): the connection.
  - A `Reader` object holds the bytes the peer sends, a cursor and the reason
    the stream stops (closed, read deadline, reset). Its `ReadFull` fills an
    array in place, as `io.ReadFull` does, or drains the stream and fails with
    `EOF`, `UnexpectedEOF`, `Timeout` or `ConnReset`.
  - A `Writer` object records, in order, each `WriteFull` buffer and each
    `codec.FreeCodecResource` call.
- `packet.dfy` (module `Packet`): the error values, the message records and the
  size constants. It holds the receive and send methods, which work on arrays
  as the source does. Each receiver is proved equal to a pure function of the
  undelivered stream bytes (`RecvLTV`/`LtvSplit`, `RecvMb`, `RecvTkProxy`),
  which gives how many bytes it consumes and what it returns.
- `packet_props.dfy` (module `PacketProperties`): the properties of those
  functions. These include the LTV round trip, the size limits, the short-ID
  rule, header-only frames, well-formed MB/TkProxy frames and the handling of
  read errors.

The codec registry (`codec.DecodeMessage`, `codec.EncodeMessage`) enters as
function parameters `decode` and `encode`. Its code is not part of this model.

Three behaviours of the code are worth stating on their own:

- The LTV length word counts the ID and the payload, not the 2-byte length
  word itself. So the bytes `[0x04,0x00, 0x2A,0x00, 0xFF]` declare a body of 4
  bytes, but only 3 follow. `LtvDeclaredLengthTooLong` proves that a closed
  stream then yields `io.ErrUnexpectedEOF`. `LtvExampleFrame` proves that with
  a length word of 3 the same bytes are the frame with ID 42 and payload
  `[0xFF]`.
- The LTV and MB readers reject a body too short for a message ID. The TkProxy
  reader has no such check (`NoErrMinPacket`).
- Only LTV passes body read errors through unchanged (`LtvReadErrors`). A
  failed MB or TkProxy body read is replaced by a fixed new error
  (`MbReadErrors`, `TkProxyBodyReadError`).

## Model

| member | source | states |
|---|---|---|
| `Wire.Uint16` | util/packet.go:49 | Go's `uint16(n)`: the value below 2^16 congruent to n, and n itself when in range |
| `Wire.Uint32` | util/packet.go:209 | Go's `uint32(n)`: the value below 2^32 congruent to n, and n itself when in range |
| `Wire.GetUint16` | util/packet.go:47 | a little-endian u16 read from two bytes is below 2^16 |
| `Wire.GetUint32At` | util/packet.go:202-205 | the u32 length word read at a header offset is below 2^32 |
| `Wire.Uint16RoundTrip` | util/packet.go:111-114 | the two bytes `PutUint16` stores for v read back as v |
| `Wire.Uint16BytesRoundTrip` | util/packet.go:47 | reading two bytes as a u16 and storing it again gives the same two bytes |
| `Wire.Uint32RoundTrip` | util/packet.go:263-266 | a u32 field placed at any offset reads back as its value |
| `Wire.PutUint16Into` | util/packet.go:111 | `PutUint16` into a buffer sets exactly the two bytes at the offset and leaves the rest unchanged |
| `Packet.RecvLTVPacket` | util/packet.go:29-80 | consumes exactly the bytes `RecvLTV` says and returns its result: the header read, the limit, the body read, the short-ID check, then the decoder on (ID, payload) |
| `Packet.SendLTVPacket` | util/packet.go:83-128 | a raw packet is framed without the encoder; an encode error returns before anything is written; otherwise one write of `LtvFrame(id, data)`, followed by a free exactly when the message was encoded; the error is the write's |
| `Packet.RecvMbPacket` | util/packet.go:192-232 | consumes exactly the bytes `RecvMb` says and returns its result |
| `Packet.SendMBPacket` | util/packet.go:235-245 | one write of the caller's bytes, with no framing added; the error is the write's |
| `Packet.RecvTkProxyPacket` | util/packet.go:248-289 | consumes exactly the bytes `RecvTkProxy` says and returns its result, the slice-bounds panic included; the body is read into the tail of a single buffer of `uint32(24+bodyLen)` bytes, then the header is copied into its head |
| `Packet.TkProxyBufferLen` | util/packet.go:281 | the buffer size `24+bodyLen`, computed in uint32, falls below 24 exactly when bodyLen is at least 2^32-24, and is otherwise 24+bodyLen |
| `Packet.SendTkProxyPacket` | util/packet.go:292-302 | one write of the caller's bytes, with no framing added; the error is the write's |
| `Packet.RecvUDPPacket` | util/packet.go:305-308 | the datagram is wrapped unchanged |
| `PacketProperties.LtvFrameLayout` | util/packet.go:108-117 | the frame has 4+len(msgData) bytes: bytes 0-1 are LE `uint16(2+len)`, bytes 2-3 are LE `uint16(msgID)`, the rest is the payload |
| `PacketProperties.LtvRoundTrip` | util/packet.go:32-70 | for a payload of at most 65533 bytes under the limit, the receiver consumes exactly the sender's frame and splits it into `uint16(msgID)` and the payload, whatever follows |
| `PacketProperties.LtvRecvRoundTrip` | util/packet.go:73-79 | on such a frame the receiver returns the decoder's answer for the sent ID and payload |
| `PacketProperties.LtvRoundTripId` | util/packet.go:114 | an ID in 0..65535 is received unchanged |
| `PacketProperties.LtvFramesInSequence` | util/packet.go:54-57 | a frame is consumed exactly, so the next receive starts on the bytes after it |
| `PacketProperties.LtvSizeLimit` | util/packet.go:49-51 | ErrMaxPacket exactly when a limit is set and the declared length is at least `uint16(maxPacketSize)`; then only the 2 header bytes are consumed |
| `PacketProperties.LtvLimitWraps` | util/packet.go:49 | a positive limit that is a multiple of 65536 truncates to 0 and rejects every frame |
| `PacketProperties.LtvShortMsgID` | util/packet.go:64-66 | ErrShortMsgID exactly when a declared length below 2, under the limit, has been read in full; the decoder's answer is then ignored |
| `PacketProperties.LtvLengthWraps` | util/packet.go:111 | a 65534-byte payload is framed with declared length 0 and is received as ErrShortMsgID after 2 bytes |
| `PacketProperties.LtvReadErrors` | util/packet.go:35-40 | a stream stopping inside the header or the declared body yields the io.ReadFull error unchanged, after consuming what was there |
| `PacketProperties.LtvDeclaredLengthTooLong` | util/packet.go:54-62 | the bytes `04 00 2A 00 FF` on a closed stream yield io.ErrUnexpectedEOF |
| `PacketProperties.LtvExampleFrame` | util/packet.go:64-70 | the bytes `03 00 2A 00 FF` split into ID 42 and payload `[0xFF]` |
| `PacketProperties.MbSizeLimit` | util/packet.go:209-211 | ErrMaxPacket exactly when a limit is set and the u32 at header offset 4 is at least `uint32(maxPacketSize)`; then only the 8 header bytes are consumed |
| `PacketProperties.MbHeaderOnly` | util/packet.go:213-217 | a declared length of 0 returns the 8 header bytes verbatim with no data and reads nothing more |
| `PacketProperties.MbFrameRoundTrip` | util/packet.go:219-231 | a header whose length word is the body's length (at least 2, under the limit) is returned with exactly that body, and nothing after it is read |
| `PacketProperties.MbShortMsgID` | util/packet.go:228-230 | ErrShortMsgID exactly when the declared length is 1, under the limit, and that byte arrived |
| `PacketProperties.MbReadErrors` | util/packet.go:194-197 | a header read error passes through unchanged; any body read error becomes `RecvMbPacket read body failed` |
| `PacketProperties.TkProxyTimeoutSentinel` | util/packet.go:250-257 | a header read cut short by the deadline gives `ConServerMsgRecv{ErrNo: 1}` and no error; any other header read error passes through; the sentinel arises in no other way |
| `PacketProperties.TkProxySizeLimit` | util/packet.go:270-272 | ErrMaxPacket exactly when a limit is set and the u32 at header offset 20 is at least `uint32(maxPacketSize)`; then only the 24 header bytes are consumed |
| `PacketProperties.TkProxyFrameRoundTrip` | util/packet.go:274-288 | a header whose length word is the body's length, below 2^32-24 and under the limit, is returned as one buffer of exactly 24+bodyLen bytes, header first, or the header alone when the length is 0 |
| `PacketProperties.TkProxyBodyReadError` | util/packet.go:282-285 | any body read error, a timeout included, becomes `RecvTkProxyPacket, read body failed` (for lengths whose buffer size does not wrap) |
| `PacketProperties.TkProxyLengthWrapPanics` | util/packet.go:270-282 | the reader panics exactly when the header arrived and its length word, at least 2^32-24, passes the limit; the panic comes after the 24 header bytes and before any body byte |
| `PacketProperties.TkProxyAllOnesLengthPanics` | util/packet.go:281-282 | a header with length word `FF FF FF FF` and no limit panics instead of reading a body |
| `PacketProperties.TkProxyWideFrameRoundTrip` | util/packet.go:274-288 | with the buffer size computed without wrap-around, every well-formed frame under the limit is returned as one buffer of exactly 24+bodyLen bytes, header first |
| `PacketProperties.NoErrMinPacket` | util/packet.go:42-44 | no receiver returns ErrMinPacket, and TkProxy never returns ErrShortMsgID |

## Findings

| source | as written | input that shows it | evidently intended | confidence | as-written member | corrected member |
|---|---|---|---|---|---|---|
| util/packet.go:281-282 | `make([]byte, tkProxyHeaderSize+bodyLen)` adds the untyped 24 to a `uint32`, so the size wraps mod 2^32; for bodyLen >= 2^32-24 the buffer is shorter than 24 and `data[tkProxyHeaderSize:]` panics | no limit (`maxPacketSize <= 0`) and header bytes 20-23 = `FF FF FF FF` | a buffer of 24+bodyLen bytes (the size computed as `int`), so the frame is read or the body read fails | medium, not executed | `PacketProperties.TkProxyAllOnesLengthPanics` | `PacketProperties.TkProxyWideFrameRoundTrip` |

## Left out

- Socket I/O, deadlines and `net.Error` classification are abstracted. A stream
  is its bytes plus the reason it stops; a timeout is the `DeadlineElapsed`
  stop reason.
- `WriteFull` internals are abstracted. A write is recorded as one effect
  carrying the whole buffer, and it fails or succeeds as the writer's fixed
  `failure` says. A failed write's partial output is not modelled.
- The codec registry (`codec.DecodeMessage`, `codec.EncodeMessage`,
  `codec.FreeCodecResource`) is not part of this model. The first two are
  function parameters. The third is a recorded effect.
- The `cellnet.ContextSet` argument of the send functions is not modelled. It
  is only passed through to the codec.
- The `binary.Read` error branches (`read header failed`) and the
  `len(header) < size` checks are not written as branches. They cannot be
  taken, because the header buffers always have their fixed size.
  `NoErrMinPacket` states that ErrMinPacket is never returned.
- `SendMBPacket` and `SendTkProxyPacket` take bytes. The Go type assertion
  `data.([]byte)`, which panics on other values, is not modelled.
- A Go runtime panic is modelled as the outcome `SliceBoundsPanic`, a value
  the reader returns after consuming the header; unwinding and recovery are not
  modelled. `RecvTkProxyPacket` models the code as written, panic included.
  `RecvTkProxyWide` is the corrected reader, stated only as a function.
- Go's `nil` and empty slices are not distinguished. A header-only MB frame
  and the TkProxy sentinel carry empty data.
- `KcpPacketMinSize` is declared in the source but not used by this core, so it
  is left out.
- The transmitters in `proc/custom/transmitter.go`, processor registration and
  concurrency between send and receive workers are outside this core.
