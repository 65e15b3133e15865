/** What the framing layer promises: the LTV frame layout and round trip,
    the size limit checked before any body byte is read, the short-ID rule,
    the header-only and well-formed MB/TkProxy frames, and the asymmetric
    treatment of read errors. */
module PacketProperties {
  import opened Wire
  import opened Stream
  import opened Packet

  // ----- LTV -----

  /** SendLTVPacket's frame: 4 + len(msgData) bytes, the truncated body
      length at 0..2, the truncated message ID at 2..4, then the payload. */
  lemma LtvFrameLayout(msgID: int, msgData: seq<byte>)
    ensures var f := LtvFrame(msgID, msgData);
      && |f| == BodySize + MsgIDSize + |msgData|
      && GetUint16(f[..2]) == Uint16(MsgIDSize + |msgData|)
      && GetUint16(f[2..4]) == Uint16(msgID)
      && f[4..] == msgData
  {
  }

  /** The LTV round trip: a frame built by SendLTVPacket, followed by any
      further bytes, is read back whole by RecvLTVPacket, which hands the
      decoder the (truncated) message ID and exactly the payload. */
  lemma LtvRoundTrip(msgID: int, msgData: seq<byte>, rest: seq<byte>, stop: Stop, maxPacketSize: int)
    requires |msgData| <= Two16 - 1 - MsgIDSize
    requires maxPacketSize <= 0 || MsgIDSize + |msgData| < Uint16(maxPacketSize)
    ensures LtvSplit(LtvFrame(msgID, msgData) + rest, stop, maxPacketSize)
         == Step(|LtvFrame(msgID, msgData)|, Ok((Uint16(msgID), msgData)))
  {
    var f := LtvFrame(msgID, msgData);
    var input := f + rest;
    LtvFrameLayout(msgID, msgData);
    var size := MsgIDSize + |msgData|;
    assert input[..BodySize] == f[..2];
    assert GetUint16(input[..BodySize]) == size;
    var body := input[BodySize..][..size];
    assert body == f[2..];
    assert body[..2] == f[2..4];
    assert body[MsgIDSize..] == msgData;
  }

  /** The same round trip through the decoder: RecvLTVPacket returns what
      the decoder makes of the message ID and payload the sender framed. */
  lemma LtvRecvRoundTrip<M>(msgID: int, msgData: seq<byte>, rest: seq<byte>, stop: Stop,
                            maxPacketSize: int, decode: (nat, seq<byte>) -> Result<M>)
    requires |msgData| <= Two16 - 1 - MsgIDSize
    requires maxPacketSize <= 0 || MsgIDSize + |msgData| < Uint16(maxPacketSize)
    ensures RecvLTV(LtvFrame(msgID, msgData) + rest, stop, maxPacketSize, decode)
         == Step(BodySize + MsgIDSize + |msgData|, decode(Uint16(msgID), msgData))
  {
    LtvRoundTrip(msgID, msgData, rest, stop, maxPacketSize);
  }

  /** A message ID in range survives the round trip unchanged. */
  lemma LtvRoundTripId(msgID: int, msgData: seq<byte>, rest: seq<byte>, stop: Stop, maxPacketSize: int)
    requires 0 <= msgID < Two16
    requires |msgData| <= Two16 - 1 - MsgIDSize
    requires maxPacketSize <= 0 || MsgIDSize + |msgData| < Uint16(maxPacketSize)
    ensures LtvSplit(LtvFrame(msgID, msgData) + rest, stop, maxPacketSize).result == Ok((msgID, msgData))
  {
    LtvRoundTrip(msgID, msgData, rest, stop, maxPacketSize);
  }

  /** The size limit: ErrMaxPacket exactly when a limit is set and the
      declared length reaches uint16(maxPacketSize); it is returned right
      after the 2-byte header, before any body byte is read. */
  lemma LtvSizeLimit(input: seq<byte>, stop: Stop, maxPacketSize: int)
    ensures var s := LtvSplit(input, stop, maxPacketSize);
      && (s.result == Err(ErrMaxPacket) <==>
          |input| >= BodySize && maxPacketSize > 0 && GetUint16(input) >= Uint16(maxPacketSize))
      && (s.result == Err(ErrMaxPacket) ==> s.taken == BodySize)
  {
  }

  /** Since the limit is truncated to 16 bits, a limit that is a positive
      multiple of 65536 rejects every frame. */
  lemma LtvLimitWraps(input: seq<byte>, stop: Stop, maxPacketSize: int)
    requires maxPacketSize > 0 && maxPacketSize % Two16 == 0
    requires |input| >= BodySize
    ensures LtvSplit(input, stop, maxPacketSize) == Step(BodySize, Err(ErrMaxPacket))
  {
  }

  /** A body shorter than the 2-byte ID gives ErrShortMsgID once it has been
      read, and the decoder is not called: RecvLTVPacket returns that error
      whatever the decoder would have said. */
  lemma LtvShortMsgID<M>(input: seq<byte>, stop: Stop, maxPacketSize: int,
                         decode: (nat, seq<byte>) -> Result<M>)
    ensures var s := LtvSplit(input, stop, maxPacketSize);
      s.result == Err(ErrShortMsgID) <==>
        && |input| >= BodySize
        && GetUint16(input) < MsgIDSize
        && (maxPacketSize <= 0 || GetUint16(input) < Uint16(maxPacketSize))
        && |input| >= BodySize + GetUint16(input)
    ensures var s := LtvSplit(input, stop, maxPacketSize);
      s.result == Err(ErrShortMsgID) ==>
        RecvLTV(input, stop, maxPacketSize, decode) == Step(s.taken, Err(ErrShortMsgID))
  {
  }

  /** Because the length field wraps, a payload of 65534 bytes is framed with
      a declared length of 0: the receiver reads no body and reports
      ErrShortMsgID after the 2-byte header. */
  lemma LtvLengthWraps(msgID: int, msgData: seq<byte>, rest: seq<byte>, stop: Stop, maxPacketSize: int)
    requires |msgData| == Two16 - MsgIDSize
    requires maxPacketSize <= 0 || Uint16(maxPacketSize) > 0
    ensures LtvSplit(LtvFrame(msgID, msgData) + rest, stop, maxPacketSize) == Step(BodySize, Err(ErrShortMsgID))
  {
  }

  /** LTV passes read errors through unchanged: a stream that stops inside
      the header or inside the declared body yields exactly the error
      io.ReadFull reported, after consuming everything that was there. */
  lemma LtvReadErrors(input: seq<byte>, stop: Stop, maxPacketSize: int)
    ensures |input| < BodySize ==>
      LtvSplit(input, stop, maxPacketSize) == Step(|input|, Err(Io(StopError(stop, |input|))))
    ensures (&& |input| >= BodySize
             && (maxPacketSize <= 0 || GetUint16(input) < Uint16(maxPacketSize))
             && |input| < BodySize + GetUint16(input)) ==>
      LtvSplit(input, stop, maxPacketSize)
        == Step(|input|, Err(Io(StopError(stop, |input| - BodySize))))
  {
  }

  /** The bytes [0x04,0x00, 0x2A,0x00, 0xFF] declare a 4-byte body but
      carry only 3 more bytes: on a closed stream the reader drains them and
      reports io.ErrUnexpectedEOF, whatever the limit. */
  lemma LtvDeclaredLengthTooLong(maxPacketSize: int)
    requires maxPacketSize <= 0 || Uint16(maxPacketSize) > 4
    ensures LtvSplit([0x04, 0x00, 0x2A, 0x00, 0xFF], Closed, maxPacketSize)
         == Step(5, Err(Io(UnexpectedEOF)))
  {
  }

  /** With the length word set to 3, the same bytes are one complete frame:
      message ID 42 and the 1-byte payload [0xFF]. */
  lemma LtvExampleFrame(maxPacketSize: int)
    requires maxPacketSize <= 0 || Uint16(maxPacketSize) > 3
    ensures LtvSplit([0x03, 0x00, 0x2A, 0x00, 0xFF], Closed, maxPacketSize)
         == Step(5, Ok((42, [0xFF])))
  {
    var input: seq<byte> := [0x03, 0x00, 0x2A, 0x00, 0xFF];
    assert input[..BodySize] == [0x03, 0x00];
    assert input[BodySize..][..3] == [0x2A, 0x00, 0xFF];
  }

  // ----- Mobile (MB) -----

  /** The MB size limit, on the u32 length at header offset 4 against
      uint32(maxPacketSize); on rejection only the 8 header bytes are read. */
  lemma MbSizeLimit(input: seq<byte>, stop: Stop, maxPacketSize: int)
    ensures var s := RecvMb(input, stop, maxPacketSize);
      && (s.result == Err(ErrMaxPacket) <==>
          |input| >= MbHeaderSize && maxPacketSize > 0
          && GetUint32At(input, MbHeaderBodyLenPos) >= Uint32(maxPacketSize))
      && (s.result == Err(ErrMaxPacket) ==> s.taken == MbHeaderSize)
  {
  }

  /** A declared length of 0 is a header-only frame: the 8 header bytes come
      back verbatim with no data, and nothing beyond them is read. */
  lemma MbHeaderOnly(input: seq<byte>, stop: Stop, maxPacketSize: int)
    requires |input| >= MbHeaderSize && GetUint32At(input, MbHeaderBodyLenPos) == 0
    requires maxPacketSize <= 0 || Uint32(maxPacketSize) > 0
    ensures RecvMb(input, stop, maxPacketSize) == Step(MbHeaderSize, Ok(MBMsgRecv(input[..MbHeaderSize], [])))
  {
  }

  /** A well-formed MB frame (the header's length word equals the body's
      length, at least 2, under the limit) is read back as that header and
      that body, leaving the bytes after it unread. */
  lemma MbFrameRoundTrip(header: seq<byte>, body: seq<byte>, rest: seq<byte>, stop: Stop, maxPacketSize: int)
    requires |header| == MbHeaderSize && GetUint32At(header, MbHeaderBodyLenPos) == |body|
    requires |body| >= MsgIDSize
    requires maxPacketSize <= 0 || |body| < Uint32(maxPacketSize)
    ensures RecvMb(header + body + rest, stop, maxPacketSize)
         == Step(MbHeaderSize + |body|, Ok(MBMsgRecv(header, body)))
  {
    var input := header + body + rest;
    assert input[..MbHeaderSize] == header;
    assert input[MbHeaderSize..][..|body|] == body;
  }

  /** A declared MB length of 1 is too short for a message ID: once that one
      byte is read the result is ErrShortMsgID. */
  lemma MbShortMsgID(input: seq<byte>, stop: Stop, maxPacketSize: int)
    ensures RecvMb(input, stop, maxPacketSize).result == Err(ErrShortMsgID) <==>
      && |input| >= MbHeaderSize + 1
      && GetUint32At(input, MbHeaderBodyLenPos) == 1
      && (maxPacketSize <= 0 || Uint32(maxPacketSize) > 1)
  {
  }

  /** MB replaces a body read error, whatever its cause, by its own fixed
      error, while a header read error passes through unchanged. */
  lemma MbReadErrors(input: seq<byte>, stop: Stop, maxPacketSize: int)
    ensures |input| < MbHeaderSize ==>
      RecvMb(input, stop, maxPacketSize) == Step(|input|, Err(Io(StopError(stop, |input|))))
    ensures (&& |input| >= MbHeaderSize
             && (maxPacketSize <= 0 || GetUint32At(input, MbHeaderBodyLenPos) < Uint32(maxPacketSize))
             && |input| < MbHeaderSize + GetUint32At(input, MbHeaderBodyLenPos)) ==>
      RecvMb(input, stop, maxPacketSize) == Step(|input|, Err(MbReadBodyFailed))
  {
  }

  // ----- TkProxy -----

  /** The timeout sentinel: a header read cut short by the read deadline
      returns ConServerMsgRecv{ErrNo: 1} and no error; any other header read
      failure is returned unchanged. The sentinel arises in no other way. */
  lemma TkProxyTimeoutSentinel(input: seq<byte>, stop: Stop, maxPacketSize: int)
    ensures |input| < TkProxyHeaderSize && stop.DeadlineElapsed? ==>
      RecvTkProxy(input, stop, maxPacketSize)
        == Step(|input|, Ok(ConServerMsgRecv([], ServerMsgErrorTimeOut)))
    ensures |input| < TkProxyHeaderSize && !stop.DeadlineElapsed? ==>
      RecvTkProxy(input, stop, maxPacketSize) == Step(|input|, Err(Io(StopError(stop, |input|))))
    ensures var r := RecvTkProxy(input, stop, maxPacketSize).result;
      r.Ok? && r.value.errNo == ServerMsgErrorTimeOut <==>
        |input| < TkProxyHeaderSize && stop.DeadlineElapsed?
  {
  }

  /** The TkProxy size limit, on the u32 length at header offset 20 against
      uint32(maxPacketSize); on rejection only the 24 header bytes are read. */
  lemma TkProxySizeLimit(input: seq<byte>, stop: Stop, maxPacketSize: int)
    ensures var s := RecvTkProxy(input, stop, maxPacketSize);
      && (s.result == Err(ErrMaxPacket) <==>
          |input| >= TkProxyHeaderSize && maxPacketSize > 0
          && GetUint32At(input, TkProxyHeaderBodyLenPos) >= Uint32(maxPacketSize))
      && (s.result == Err(ErrMaxPacket) ==> s.taken == TkProxyHeaderSize)
  {
  }

  /** A well-formed TkProxy frame whose 32-bit buffer size does not wrap is
      read back as one buffer of exactly 24 + bodyLen bytes, header first; a
      zero length gives the header alone. No short-ID check applies. */
  lemma TkProxyFrameRoundTrip(header: seq<byte>, body: seq<byte>, rest: seq<byte>, stop: Stop, maxPacketSize: int)
    requires |header| == TkProxyHeaderSize && GetUint32At(header, TkProxyHeaderBodyLenPos) == |body|
    requires |body| < Two32 - TkProxyHeaderSize
    requires maxPacketSize <= 0 || |body| < Uint32(maxPacketSize)
    ensures RecvTkProxy(header + body + rest, stop, maxPacketSize)
         == Step(TkProxyHeaderSize + |body|, Ok(ConServerMsgRecv(header + body, 0)))
  {
    var input := header + body + rest;
    assert input[..TkProxyHeaderSize] == header;
    assert input[TkProxyHeaderSize..][..|body|] == body;
    if |body| == 0 {
      assert header + body == header;
    }
  }

  /** TkProxy replaces a body read error by its own fixed error, whatever
      its cause, including a timeout. */
  lemma TkProxyBodyReadError(input: seq<byte>, stop: Stop, maxPacketSize: int)
    requires |input| >= TkProxyHeaderSize
    requires GetUint32At(input, TkProxyHeaderBodyLenPos) < Two32 - TkProxyHeaderSize
    requires maxPacketSize <= 0 || GetUint32At(input, TkProxyHeaderBodyLenPos) < Uint32(maxPacketSize)
    requires |input| < TkProxyHeaderSize + GetUint32At(input, TkProxyHeaderBodyLenPos)
    ensures RecvTkProxy(input, stop, maxPacketSize) == Step(|input|, Err(TkProxyReadBodyFailed))
  {
  }

  /** As written, a length word of 2^32 - 24 or more that passes the limit
      makes the 32-bit buffer size wrap below 24, and `data[24:]` panics
      after the header, before any body byte is read. */
  lemma TkProxyLengthWrapPanics(input: seq<byte>, stop: Stop, maxPacketSize: int)
    ensures var s := RecvTkProxy(input, stop, maxPacketSize);
      && (s.result == Err(SliceBoundsPanic) <==>
          && |input| >= TkProxyHeaderSize
          && GetUint32At(input, TkProxyHeaderBodyLenPos) >= Two32 - TkProxyHeaderSize
          && (maxPacketSize <= 0 || GetUint32At(input, TkProxyHeaderBodyLenPos) < Uint32(maxPacketSize)))
      && (s.result == Err(SliceBoundsPanic) ==> s.taken == TkProxyHeaderSize)
  {
    if |input| >= TkProxyHeaderSize {
      var h := input[..TkProxyHeaderSize];
      assert h[20] == input[20] && h[21] == input[21] && h[22] == input[22] && h[23] == input[23];
    }
  }

  /** The input that shows it: a header whose length word is FF FF FF FF,
      with no limit set, panics instead of reading a body. */
  lemma TkProxyAllOnesLengthPanics(header: seq<byte>, rest: seq<byte>, stop: Stop, maxPacketSize: int)
    requires |header| == TkProxyHeaderSize && header[20..24] == [0xFF, 0xFF, 0xFF, 0xFF]
    requires maxPacketSize <= 0
    ensures RecvTkProxy(header + rest, stop, maxPacketSize) == Step(TkProxyHeaderSize, Err(SliceBoundsPanic))
  {
    var input := header + rest;
    assert input[..TkProxyHeaderSize] == header;
    assert header[20] == 0xFF && header[21] == 0xFF && header[22] == 0xFF && header[23] == 0xFF;
  }

  /** The intended reader returns every well-formed frame under the limit as
      one buffer of exactly 24 + bodyLen bytes, header first, for every
      32-bit length. */
  lemma TkProxyWideFrameRoundTrip(header: seq<byte>, body: seq<byte>, rest: seq<byte>, stop: Stop, maxPacketSize: int)
    requires |header| == TkProxyHeaderSize && GetUint32At(header, TkProxyHeaderBodyLenPos) == |body|
    requires maxPacketSize <= 0 || |body| < Uint32(maxPacketSize)
    ensures RecvTkProxyWide(header + body + rest, stop, maxPacketSize)
         == Step(TkProxyHeaderSize + |body|, Ok(ConServerMsgRecv(header + body, 0)))
  {
    var input := header + body + rest;
    assert input[..TkProxyHeaderSize] == header;
    assert input[TkProxyHeaderSize..][..|body|] == body;
    if |body| < Two32 - TkProxyHeaderSize {
      TkProxyFrameRoundTrip(header, body, rest, stop, maxPacketSize);
    } else {
      TkProxyLengthWrapPanics(input, stop, maxPacketSize);
      assert GetUint32At(header, TkProxyHeaderBodyLenPos) == GetUint32At(input, TkProxyHeaderBodyLenPos);
    }
  }

  // ----- All formats -----

  /** ErrMinPacket is never returned, since every header buffer has its
      fixed size once io.ReadFull succeeds; nor does TkProxy ever return
      ErrShortMsgID. */
  lemma NoErrMinPacket<M>(input: seq<byte>, stop: Stop, maxPacketSize: int,
                          decode: (nat, seq<byte>) -> Result<M>)
    requires forall id: nat, payload: seq<byte> :: decode(id, payload) != Err(ErrMinPacket)
    ensures RecvLTV(input, stop, maxPacketSize, decode).result != Err(ErrMinPacket)
    ensures RecvMb(input, stop, maxPacketSize).result != Err(ErrMinPacket)
    ensures RecvTkProxy(input, stop, maxPacketSize).result != Err(ErrMinPacket)
    ensures RecvTkProxy(input, stop, maxPacketSize).result != Err(ErrShortMsgID)
  {
  }

  /** A frame that fits is consumed exactly, so frames sent back to back are
      received one after the other: the second receive starts on `next`. */
  lemma LtvFramesInSequence(msgID: int, msgData: seq<byte>, next: seq<byte>, stop: Stop, maxPacketSize: int)
    requires |msgData| <= Two16 - 1 - MsgIDSize
    requires maxPacketSize <= 0 || MsgIDSize + |msgData| < Uint16(maxPacketSize)
    ensures var input := LtvFrame(msgID, msgData) + next;
      input[LtvSplit(input, stop, maxPacketSize).taken..] == next
  {
  }
}
