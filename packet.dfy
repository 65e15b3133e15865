/** The binary framing layer of util/packet.go: the LTV, mobile (MB) and
    TkProxy wire formats, their readers and writers, and the UDP wrapper.
    The codec registry is passed in as functions (`decode`, `encode`) since
    its implementation is not part of this model. */
module Packet {
  import opened Wire
  import opened Stream

  const BodySize: nat := 2                 // LTV length field
  const MsgIDSize: nat := 2                // LTV / MB message ID field
  const MbHeaderSize: nat := 8
  const MbHeaderBodyLenPos: nat := 4
  const TkProxyHeaderSize: nat := 24
  const TkProxyHeaderBodyLenPos: nat := 20
  const ServerMsgErrorTimeOut: int := 1

  /** The error values the framing layer returns. */
  datatype Error =
    | ErrMaxPacket              // "packet over size"
    | ErrMinPacket              // "packet short size"
    | ErrShortMsgID             // "short msgid"
    | Io(cause: IoError)        // a read or write error passed through unchanged
    | MbReadBodyFailed          // "RecvMbPacket read body failed"
    | TkProxyReadBodyFailed     // "RecvTkProxyPacket, read body failed"
    | Codec(code: int)          // an error of the codec registry
    | SliceBoundsPanic          // a Go runtime panic (slice bounds out of range), not a returned error

  datatype Result<+T> = Ok(value: T) | Err(error: Error)

  /** One receive: how many stream bytes it consumed and what it returned. */
  datatype Step<+T> = Step(taken: nat, result: Result<T>)

  /** A mobile frame: the 8 header bytes and the body (empty for a
      header-only frame, where Go leaves Data nil). */
  datatype MBMsgRecv = MBMsgRecv(header: seq<byte>, data: seq<byte>)

  /** A TkProxy frame (header and body in one buffer), or the timeout
      sentinel, whose data is empty and whose errNo is ServerMsgErrorTimeOut. */
  datatype ConServerMsgRecv = ConServerMsgRecv(data: seq<byte>, errNo: int)

  datatype UDPMsgRecv = UDPMsgRecv(data: seq<byte>)

  /** A payload the caller has already serialised. */
  datatype RawPacket = RawPacket(msgID: int, msgData: seq<byte>)

  /** The registry's identity of a message type: its ID and its codec. */
  datatype MessageMeta = MessageMeta(id: int, codec: nat)

  /** What the codec registry's encoder produces. */
  datatype Encoded = Encoded(data: seq<byte>, meta: MessageMeta)

  /** The value handed to SendLTVPacket: a raw packet, or a message for the
      codec registry to encode. */
  datatype Outbound<M> = Raw(packet: RawPacket) | Message(value: M)

  // ----- LTV -----

  /** The frame SendLTVPacket writes: the u16 body length (ID plus payload),
      the u16 message ID, then the payload; both fields truncated to 16 bits. */
  function LtvFrame(msgID: int, msgData: seq<byte>): (f: seq<byte>)
  {
    PutUint16(Uint16(MsgIDSize + |msgData|)) + PutUint16(Uint16(msgID)) + msgData
  }

  /** What RecvLTVPacket does up to the decoder call, on a stream whose
      undelivered bytes are `input`: the (message ID, payload) it hands the
      decoder, or the error it returns first. */
  function LtvSplit(input: seq<byte>, stop: Stop, maxPacketSize: int): (s: Step<(nat, seq<byte>)>)
  {
    var h := ReadFullOf(input, stop, BodySize);
    if h.fill.Failed? then Step(h.taken, Err(Io(h.fill.cause)))
    else
      var size := GetUint16(h.fill.bytes);
      if maxPacketSize > 0 && size >= Uint16(maxPacketSize) then Step(BodySize, Err(ErrMaxPacket))
      else
        var b := ReadFullOf(input[BodySize..], stop, size);
        if b.fill.Failed? then Step(BodySize + b.taken, Err(Io(b.fill.cause)))
        else if size < MsgIDSize then Step(BodySize + size, Err(ErrShortMsgID))
        else Step(BodySize + size, Ok((GetUint16(b.fill.bytes), b.fill.bytes[MsgIDSize..])))
  }

  /** What RecvLTVPacket returns: the decoder's answer on the split frame. */
  function RecvLTV<M>(input: seq<byte>, stop: Stop, maxPacketSize: int,
                      decode: (nat, seq<byte>) -> Result<M>): (s: Step<M>)
  {
    var s := LtvSplit(input, stop, maxPacketSize);
    match s.result
    case Err(e) => Step(s.taken, Err(e))
    case Ok(frame) => Step(s.taken, decode(frame.0, frame.1))
  }

  method RecvLTVPacket<M>(reader: Reader, maxPacketSize: int,
                          decode: (nat, seq<byte>) -> Result<M>) returns (r: Result<M>)
    requires reader.Valid()
    modifies reader
    ensures reader.Valid()
    ensures var s := RecvLTV(old(reader.Remaining()), reader.stop, maxPacketSize, decode);
      reader.pos == old(reader.pos) + s.taken && r == s.result
  {
    ghost var input := reader.Remaining();
    var sizeBuffer := new byte[BodySize];
    var err := reader.ReadFull(sizeBuffer, 0);
    if err.Some? {
      return Err(Io(err.value));
    }
    assert sizeBuffer[..] == input[..BodySize];
    var size := GetUint16(sizeBuffer[..]);
    if maxPacketSize > 0 && size >= Uint16(maxPacketSize) {
      return Err(ErrMaxPacket);
    }
    ghost var rest := reader.Remaining();
    assert rest == input[BodySize..];
    var body := new byte[size];
    err := reader.ReadFull(body, 0);
    if err.Some? {
      return Err(Io(err.value));
    }
    assert body[..] == rest[..size];
    if body.Length < MsgIDSize {
      return Err(ErrShortMsgID);
    }
    var msgid := GetUint16(body[..]);
    var msgData := body[MsgIDSize..];
    r := decode(msgid, msgData);
  }

  method SendLTVPacket<M>(writer: Writer, data: Outbound<M>,
                          encode: M -> Result<Encoded>) returns (err: Option<Error>)
    modifies writer
    ensures data.Raw? ==>
      && writer.trace == old(writer.trace) + [Wrote(LtvFrame(data.packet.msgID, data.packet.msgData))]
      && err == WriteError(writer.failure)
    ensures data.Message? && encode(data.value).Err? ==>
      writer.trace == old(writer.trace) && err == Some(encode(data.value).error)
    ensures data.Message? && encode(data.value).Ok? ==>
      var e := encode(data.value).value;
      && writer.trace == old(writer.trace) + [Wrote(LtvFrame(e.meta.id, e.data)), Freed(e.meta.codec, e.data)]
      && err == WriteError(writer.failure)
  {
    var msgData: seq<byte>;
    var msgID: int;
    var meta: Option<MessageMeta> := None;
    match data {
      case Raw(p) =>
        msgData := p.msgData;
        msgID := p.msgID;
      case Message(v) =>
        var enc := encode(v);
        if enc.Err? {
          return Some(enc.error);
        }
        msgData := enc.value.data;
        meta := Some(enc.value.meta);
        msgID := enc.value.meta.id;
    }

    var pkt := new byte[BodySize + MsgIDSize + |msgData|];
    PutUint16Into(pkt, 0, Uint16(MsgIDSize + |msgData|));
    PutUint16Into(pkt, BodySize, Uint16(msgID));
    ghost var head := pkt[..BodySize + MsgIDSize];
    assert head == PutUint16(Uint16(MsgIDSize + |msgData|)) + PutUint16(Uint16(msgID));
    for i := 0 to |msgData|
      modifies pkt
      invariant pkt[..BodySize + MsgIDSize] == head
      invariant pkt[BodySize + MsgIDSize..BodySize + MsgIDSize + i] == msgData[..i]
    {
      pkt[BodySize + MsgIDSize + i] := msgData[i];
    }
    assert msgData[..|msgData|] == msgData;
    assert pkt[BodySize + MsgIDSize..] == msgData;
    assert pkt[..] == head + pkt[BodySize + MsgIDSize..];
    assert pkt[..] == LtvFrame(msgID, msgData);

    var werr := writer.WriteFull(pkt[..]);
    if meta.Some? {
      writer.FreeCodecResource(meta.value.codec, msgData);
    }
    err := if werr.Some? then Some(Io(werr.value)) else None;
  }

  /** The error SendXXXPacket returns for a writer whose WriteFull reports
      `failure`. */
  function WriteError(failure: Option<IoError>): (e: Option<Error>)
    ensures e.None? <==> failure.None?
    ensures failure.Some? ==> e == Some(Io(failure.value))
  {
    if failure.Some? then Some(Io(failure.value)) else None
  }

  // ----- Mobile (MB) -----

  /** What RecvMbPacket consumes and returns on a stream whose undelivered
      bytes are `input`. */
  function RecvMb(input: seq<byte>, stop: Stop, maxPacketSize: int): (s: Step<MBMsgRecv>)
  {
    var h := ReadFullOf(input, stop, MbHeaderSize);
    if h.fill.Failed? then Step(h.taken, Err(Io(h.fill.cause)))
    else
      var header := h.fill.bytes;
      var bodyLen := GetUint32At(header, MbHeaderBodyLenPos);
      if maxPacketSize > 0 && bodyLen >= Uint32(maxPacketSize) then Step(MbHeaderSize, Err(ErrMaxPacket))
      else if bodyLen == 0 then Step(MbHeaderSize, Ok(MBMsgRecv(header, [])))
      else
        var b := ReadFullOf(input[MbHeaderSize..], stop, bodyLen);
        if b.fill.Failed? then Step(MbHeaderSize + b.taken, Err(MbReadBodyFailed))
        else if bodyLen < MsgIDSize then Step(MbHeaderSize + bodyLen, Err(ErrShortMsgID))
        else Step(MbHeaderSize + bodyLen, Ok(MBMsgRecv(header, b.fill.bytes)))
  }

  method RecvMbPacket(reader: Reader, maxPacketSize: int) returns (r: Result<MBMsgRecv>)
    requires reader.Valid()
    modifies reader
    ensures reader.Valid()
    ensures var s := RecvMb(old(reader.Remaining()), reader.stop, maxPacketSize);
      reader.pos == old(reader.pos) + s.taken && r == s.result
  {
    ghost var input := reader.Remaining();
    var header := new byte[MbHeaderSize];
    var err := reader.ReadFull(header, 0);
    if err.Some? {
      return Err(Io(err.value));
    }
    assert header[..] == input[..MbHeaderSize];
    var bodyLen := GetUint32At(header[..], MbHeaderBodyLenPos);
    if maxPacketSize > 0 && bodyLen >= Uint32(maxPacketSize) {
      return Err(ErrMaxPacket);
    }
    if bodyLen == 0 {
      return Ok(MBMsgRecv(header[..], []));
    }
    ghost var rest := reader.Remaining();
    assert rest == input[MbHeaderSize..];
    var body := new byte[bodyLen];
    err := reader.ReadFull(body, 0);
    if err.Some? {
      return Err(MbReadBodyFailed);
    }
    assert body[..] == rest[..bodyLen];
    if body.Length < MsgIDSize {
      return Err(ErrShortMsgID);
    }
    r := Ok(MBMsgRecv(header[..], body[..]));
  }

  /** SendMBPacket: the caller's bytes, already framed, in one write. */
  method SendMBPacket(writer: Writer, data: seq<byte>) returns (err: Option<Error>)
    modifies writer
    ensures writer.trace == old(writer.trace) + [Wrote(data)]
    ensures err == WriteError(writer.failure)
  {
    var werr := writer.WriteFull(data);
    err := if werr.Some? then Some(Io(werr.value)) else None;
  }

  // ----- TkProxy -----

  /** The length of the buffer RecvTkProxyPacket allocates for header and
      body: Go adds the untyped 24 to the uint32 `bodyLen` in 32 bits, so the
      sum wraps once `bodyLen` reaches 2^32 - 24 and then falls below 24. */
  function TkProxyBufferLen(bodyLen: nat): (n: nat)
    requires bodyLen < Two32
    ensures n < TkProxyHeaderSize <==> bodyLen >= Two32 - TkProxyHeaderSize
    ensures n >= TkProxyHeaderSize ==> n == TkProxyHeaderSize + bodyLen
  {
    if TkProxyHeaderSize + bodyLen >= Two32 then
      assert Uint32(TkProxyHeaderSize + bodyLen) == TkProxyHeaderSize + bodyLen - Two32;
      Uint32(TkProxyHeaderSize + bodyLen)
    else
      Uint32(TkProxyHeaderSize + bodyLen)
  }

  /** The body read of RecvTkProxyPacket once the buffer has room for the
      header: `bodyLen` stream bytes after the header, returned behind it. */
  function TkProxyBody(input: seq<byte>, stop: Stop, bodyLen: nat): (s: Step<ConServerMsgRecv>)
    requires |input| >= TkProxyHeaderSize
  {
    var b := ReadFullOf(input[TkProxyHeaderSize..], stop, bodyLen);
    if b.fill.Failed? then Step(TkProxyHeaderSize + b.taken, Err(TkProxyReadBodyFailed))
    else Step(TkProxyHeaderSize + bodyLen, Ok(ConServerMsgRecv(input[..TkProxyHeaderSize] + b.fill.bytes, 0)))
  }

  /** What RecvTkProxyPacket consumes and returns on a stream whose
      undelivered bytes are `input`, as written: a length whose 32-bit
      buffer size wraps below 24 panics at `data[24:]`. */
  function RecvTkProxy(input: seq<byte>, stop: Stop, maxPacketSize: int): (s: Step<ConServerMsgRecv>)
  {
    var h := ReadFullOf(input, stop, TkProxyHeaderSize);
    if h.fill.Failed? then
      if h.fill.cause.Timeout? then Step(h.taken, Ok(ConServerMsgRecv([], ServerMsgErrorTimeOut)))
      else Step(h.taken, Err(Io(h.fill.cause)))
    else
      var header := h.fill.bytes;
      var bodyLen := GetUint32At(header, TkProxyHeaderBodyLenPos);
      if maxPacketSize > 0 && bodyLen >= Uint32(maxPacketSize) then Step(TkProxyHeaderSize, Err(ErrMaxPacket))
      else if bodyLen == 0 then Step(TkProxyHeaderSize, Ok(ConServerMsgRecv(header, 0)))
      else if TkProxyBufferLen(bodyLen) < TkProxyHeaderSize then Step(TkProxyHeaderSize, Err(SliceBoundsPanic))
      else TkProxyBody(input, stop, bodyLen)
  }

  /** The evidently intended reader: as RecvTkProxy, except that a length
      whose 32-bit buffer size would wrap is read like any other length
      instead of panicking. */
  function RecvTkProxyWide(input: seq<byte>, stop: Stop, maxPacketSize: int): (s: Step<ConServerMsgRecv>)
  {
    var s := RecvTkProxy(input, stop, maxPacketSize);
    if s.result == Err(SliceBoundsPanic) && |input| >= TkProxyHeaderSize then
      TkProxyBody(input, stop, GetUint32At(input, TkProxyHeaderBodyLenPos))
    else s
  }

  method RecvTkProxyPacket(reader: Reader, maxPacketSize: int) returns (r: Result<ConServerMsgRecv>)
    requires reader.Valid()
    modifies reader
    ensures reader.Valid()
    ensures var s := RecvTkProxy(old(reader.Remaining()), reader.stop, maxPacketSize);
      reader.pos == old(reader.pos) + s.taken && r == s.result
  {
    ghost var input := reader.Remaining();
    var header := new byte[TkProxyHeaderSize];
    var err := reader.ReadFull(header, 0);
    if err.Some? {
      if err.value.Timeout? {
        return Ok(ConServerMsgRecv([], ServerMsgErrorTimeOut));
      }
      return Err(Io(err.value));
    }
    assert header[..] == input[..TkProxyHeaderSize];
    var bodyLen := GetUint32At(header[..], TkProxyHeaderBodyLenPos);
    if maxPacketSize > 0 && bodyLen >= Uint32(maxPacketSize) {
      return Err(ErrMaxPacket);
    }
    if bodyLen == 0 {
      return Ok(ConServerMsgRecv(header[..], 0));
    }
    ghost var rest := reader.Remaining();
    assert rest == input[TkProxyHeaderSize..];
    // one buffer for header and body, sized in 32-bit arithmetic
    var data := new byte[TkProxyBufferLen(bodyLen)];
    if data.Length < TkProxyHeaderSize {
      // data[tkProxyHeaderSize:] is out of range
      return Err(SliceBoundsPanic);
    }
    // the body is read into the buffer's tail
    err := reader.ReadFull(data, TkProxyHeaderSize);
    if err.Some? {
      return Err(TkProxyReadBodyFailed);
    }
    ghost var body := data[TkProxyHeaderSize..];
    assert body == rest[..bodyLen];
    // copy(data, header)
    for i := 0 to TkProxyHeaderSize
      modifies data
      invariant data[..i] == header[..i]
      invariant data[TkProxyHeaderSize..] == body
    {
      data[i] := header[i];
    }
    assert header[..TkProxyHeaderSize] == header[..];
    assert data[..] == data[..TkProxyHeaderSize] + data[TkProxyHeaderSize..];
    assert data[..] == input[..TkProxyHeaderSize] + input[TkProxyHeaderSize..][..bodyLen];
    assert reader.pos == old(reader.pos) + TkProxyHeaderSize + bodyLen;
    r := Ok(ConServerMsgRecv(data[..], 0));
  }

  /** SendTkProxyPacket: the caller's bytes, already framed, in one write. */
  method SendTkProxyPacket(writer: Writer, data: seq<byte>) returns (err: Option<Error>)
    modifies writer
    ensures writer.trace == old(writer.trace) + [Wrote(data)]
    ensures err == WriteError(writer.failure)
  {
    var werr := writer.WriteFull(data);
    err := if werr.Some? then Some(Io(werr.value)) else None;
  }

  // ----- UDP -----

  /** RecvUDPPacket: a datagram is wrapped as it is, with no framing. */
  function RecvUDPPacket(data: seq<byte>): (msg: UDPMsgRecv)
    ensures msg.data == data
  {
    UDPMsgRecv(data)
  }
}
