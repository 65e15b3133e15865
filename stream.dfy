/** The connection as the framing layer sees it: a reader that `io.ReadFull`
    drains from a cursor, and a writer that `WriteFull` hands whole buffers to. */
module Stream {
  import opened Wire

  datatype Option<+T> = None | Some(value: T)

  /** Why a connection delivers no bytes beyond those it already has. */
  datatype Stop =
    | Closed           // the peer closed the connection
    | DeadlineElapsed  // the read deadline passed first
    | Reset            // the transport failed in some other way

  /** What a failed `io.ReadFull` reports. */
  datatype IoError =
    | EOF            // io.EOF: the stream ended before the first byte
    | UnexpectedEOF  // io.ErrUnexpectedEOF: it ended part-way through
    | Timeout        // a net.Error whose Timeout() is true
    | ConnReset      // a net.Error whose Timeout() is false

  /** The error `io.ReadFull` returns when the stream stops after `got` of the
      wanted bytes: only a clean close is turned into EOF/UnexpectedEOF. */
  function StopError(stop: Stop, got: nat): (e: IoError)
    ensures e.Timeout? <==> stop.DeadlineElapsed?
    ensures stop.Closed? ==> (e.EOF? <==> got == 0)
  {
    match stop
    case Closed => if got == 0 then EOF else UnexpectedEOF
    case DeadlineElapsed => Timeout
    case Reset => ConnReset
  }

  datatype Fill = Filled(bytes: seq<byte>) | Failed(cause: IoError)

  /** One `io.ReadFull` of `n` bytes: how many stream bytes it consumes and
      what it reports. */
  datatype Read = Read(taken: nat, fill: Fill)

  /** `io.ReadFull` of `n` bytes on a stream whose undelivered bytes are
      `input`: it takes exactly `n` bytes when there are that many, and
      otherwise drains the stream and fails. */
  function ReadFullOf(input: seq<byte>, stop: Stop, n: nat): (r: Read)
    ensures r.fill.Filled? <==> n <= |input|
    ensures r.fill.Filled? ==> r.taken == n && r.fill.bytes == input[..n]
    ensures r.fill.Failed? ==> r.taken == |input| && r.fill.cause == StopError(stop, |input|)
  {
    if n <= |input| then Read(n, Filled(input[..n]))
    else Read(|input|, Failed(StopError(stop, |input|)))
  }

  /** A connection's read side: every byte the peer sends before the stream
      stops, the cursor of the next undelivered byte, and why it stops. */
  class Reader {
    const data: seq<byte>
    const stop: Stop
    var pos: nat

    ghost predicate Valid()
      reads this
    {
      pos <= |data|
    }

    /** The bytes not yet delivered. */
    function Remaining(): (rest: seq<byte>)
      reads this
      requires Valid()
    {
      data[pos..]
    }

    constructor (data: seq<byte>, stop: Stop)
      ensures Valid() && this.data == data && this.stop == stop && pos == 0
      ensures Remaining() == data
    {
      this.data := data;
      this.stop := stop;
      pos := 0;
    }

    /** `io.ReadFull(reader, buf[off:])`: fills the tail of `buf` from the
        stream, byte by byte, or drains the stream and fails. The head of
        `buf` is left alone. */
    method ReadFull(buf: array<byte>, off: nat) returns (err: Option<IoError>)
      requires Valid() && off <= buf.Length
      modifies this, buf
      ensures Valid()
      ensures var r := ReadFullOf(old(Remaining()), stop, buf.Length - off);
        && pos == old(pos) + r.taken
        && (r.fill.Filled? ==> err == None && buf[off..] == r.fill.bytes)
        && (r.fill.Failed? ==> err == Some(r.fill.cause))
      ensures buf[..off] == old(buf[..off])
    {
      var i := off;
      while i < buf.Length && pos < |data|
        invariant off <= i <= buf.Length
        invariant old(pos) <= pos <= |data|
        invariant pos - old(pos) == i - off
        invariant buf[off..i] == data[old(pos)..pos]
        invariant buf[..off] == old(buf[..off])
      {
        buf[i] := data[pos];
        i := i + 1;
        pos := pos + 1;
      }
      if i < buf.Length {
        err := Some(StopError(stop, i - off));
      } else {
        assert buf[off..] == buf[off..i];
        assert data[old(pos)..pos] == data[old(pos)..][..buf.Length - off];
        err := None;
      }
    }
  }

  /** What the send path does to the outside world, in order. */
  datatype Effect =
    | Wrote(bytes: seq<byte>)              // one WriteFull call with this buffer
    | Freed(codec: nat, bytes: seq<byte>)  // one codec.FreeCodecResource call

  /** A connection's write side. `failure` is what every `WriteFull` on it
      reports (None when writes succeed). */
  class Writer {
    var trace: seq<Effect>
    const failure: Option<IoError>

    constructor (failure: Option<IoError>)
      ensures trace == [] && this.failure == failure
    {
      trace := [];
      this.failure := failure;
    }

    /** `WriteFull(writer, buf)`: hands the whole buffer over in one call. */
    method WriteFull(buf: seq<byte>) returns (err: Option<IoError>)
      modifies this
      ensures trace == old(trace) + [Wrote(buf)]
      ensures err == failure
    {
      trace := trace + [Wrote(buf)];
      err := failure;
    }

    /** `codec.FreeCodecResource(codec, bytes, ctx)`: gives pooled encode
        memory back to the codec that lent it. */
    method FreeCodecResource(codec: nat, bytes: seq<byte>)
      modifies this
      ensures trace == old(trace) + [Freed(codec, bytes)]
    {
      trace := trace + [Freed(codec, bytes)];
    }
  }
}
