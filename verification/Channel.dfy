/** Stream reassembly: however the bytes of a stream of frames are cut, receiving yields those frames. */
module Channel {
  import opened Base
  import opened Frames
  import Spec

  function Concat(chunks: seq<seq<byte>>): seq<byte> {
    if chunks == [] then [] else chunks[0] + Concat(chunks[1..])
  }

  /** What one call of `receive` answers, and what it leaves in the buffer and in the socket. */
  datatype Received = Received(outcome: Outcome<Frame>, inbound: seq<byte>, chunks: seq<seq<byte>>)

  /** The socket delivers its chunks one by one and fails once they are used up. */
  function Receive(wire: Wire, inbound: seq<byte>, chunks: seq<seq<byte>>): Received
    decreases |chunks|
  {
    match Decode(inbound, wire)
    case Complete(f, consumed) => Received(Ok(f), inbound[consumed..], chunks)
    case Failed(error) => Received(Err(error), inbound, chunks)
    case NeedMoreData =>
      if |inbound| > wire.limits.maxFrameBytes then Received(Err(PayloadTooLarge), inbound, chunks)
      else if chunks == [] then Received(Err(TransportError), inbound, chunks)
      else Receive(wire, inbound + chunks[0], chunks[1..])
  }

  /** `count` calls in a row. */
  function ReceiveMany(wire: Wire, inbound: seq<byte>, chunks: seq<seq<byte>>, count: nat): seq<Outcome<Frame>>
    decreases count
  {
    if count == 0 then []
    else
      var r := Receive(wire, inbound, chunks);
      [r.outcome] + ReceiveMany(wire, r.inbound, r.chunks, count - 1)
  }

  // ---- The stream ---------------------------------------------------------------------------------------

  ghost predicate Sendable(wire: Wire, frames: seq<Frame>) {
    forall i :: 0 <= i < |frames| ==> Typed(frames[i]) && Encode(frames[i], wire).Ok?
  }

  /** The bytes of the frames, one after the other. */
  function Stream(wire: Wire, frames: seq<Frame>): seq<byte>
    requires Sendable(wire, frames)
  {
    if frames == [] then [] else Encode(frames[0], wire).value + Stream(wire, frames[1..])
  }

  /** What arrives: the frames as sent, with the protocol version filled in. */
  function Arrivals(frames: seq<Frame>): seq<Outcome<Frame>> {
    seq(|frames|, i requires 0 <= i < |frames| => Ok(frames[i].(version := VERSION)))
  }

  // ---- One frame -------------------------------------------------------------------------------------------

  lemma PrefixCases(inbound: seq<byte>, tail: seq<byte>, frame: seq<byte>, rest: seq<byte>)
    requires inbound + tail == frame + rest
    ensures |inbound| < |frame| ==> inbound == frame[..|inbound|]
    ensures |inbound| >= |frame| ==> inbound == frame + inbound[|frame|..] && inbound[|frame|..] + tail == rest
  {
    assert (inbound + tail)[..|inbound|] == inbound;
    if |inbound| < |frame| {
      assert (frame + rest)[..|inbound|] == frame[..|inbound|];
    } else {
      assert (frame + rest)[..|frame|] == frame && (inbound + tail)[..|frame|] == inbound[..|frame|];
      assert (frame + rest)[|frame|..] == rest && (inbound + tail)[|frame|..] == inbound[|frame|..] + tail;
    }
  }

  lemma SilentSocket(inbound: seq<byte>, chunks: seq<seq<byte>>)
    ensures chunks == [] ==> inbound + Concat(chunks) == inbound
  {
  }

  lemma ConcatStep(inbound: seq<byte>, chunks: seq<seq<byte>>)
    requires chunks != []
    ensures inbound + Concat(chunks) == inbound + chunks[0] + Concat(chunks[1..])
  {
  }

  /** Wherever the cuts fall, the next call answers the next frame and leaves exactly what follows it. */
  lemma {:induction false} ReceivesNextFrame(wire: Wire, inbound: seq<byte>, chunks: seq<seq<byte>>, f: Frame, rest: seq<byte>)
    requires Sealing(wire) && wire.limits.Valid() && Typed(f) && Encode(f, wire).Ok?
    requires inbound + Concat(chunks) == Encode(f, wire).value + rest
    ensures var r := Receive(wire, inbound, chunks);
            r.outcome == Ok(f.(version := VERSION)) && r.inbound + Concat(r.chunks) == rest
    decreases |chunks|
  {
    var frame := Encode(f, wire).value;
    PrefixCases(inbound, Concat(chunks), frame, rest);
    if |inbound| >= |frame| {
      DecodeOfEncode(f, wire, inbound[|frame|..]);
    } else {
      StrictPrefixNeedsMore(f, wire, |inbound|);
      WaitingBufferIsBounded(inbound, wire);
      SilentSocket(inbound, chunks);
      if chunks == [] {
        assert false;
      }
      ConcatStep(inbound, chunks);
      ReceivesNextFrame(wire, inbound + chunks[0], chunks[1..], f, rest);
    }
  }

  lemma ArrivalsStep(frames: seq<Frame>)
    requires frames != []
    ensures Arrivals(frames) == [Ok(frames[0].(version := VERSION))] + Arrivals(frames[1..])
  {
  }

  lemma ManyStep(wire: Wire, inbound: seq<byte>, chunks: seq<seq<byte>>, count: nat)
    requires count > 0
    ensures var r := Receive(wire, inbound, chunks);
            ReceiveMany(wire, inbound, chunks, count) == [r.outcome] + ReceiveMany(wire, r.inbound, r.chunks, count - 1)
  {
  }

  /**
   Stream reassembly is independent of chunking: however the concatenation of encoded frames is
   split, repeated calls yield exactly those frames, in order.
   */
  lemma {:induction false} ReassemblyIgnoresChunking(wire: Wire, inbound: seq<byte>, chunks: seq<seq<byte>>, frames: seq<Frame>)
    requires Sealing(wire) && wire.limits.Valid() && Sendable(wire, frames)
    requires inbound + Concat(chunks) == Stream(wire, frames)
    ensures ReceiveMany(wire, inbound, chunks, |frames|) == Arrivals(frames)
    decreases |frames|
  {
    if frames != [] {
      ReceivesNextFrame(wire, inbound, chunks, frames[0], Stream(wire, frames[1..]));
      var r := Receive(wire, inbound, chunks);
      ReassemblyIgnoresChunking(wire, r.inbound, r.chunks, frames[1..]);
      ArrivalsStep(frames);
      ManyStep(wire, inbound, chunks, |frames|);
    }
  }

  /** The same for the wire the runtime speaks, with its own checksum, from an empty buffer on. */
  lemma RuntimeStreamsReassemble(limits: Spec.Limits, chunks: seq<seq<byte>>, frames: seq<Frame>)
    requires limits.Valid() && Sendable(StandardWire(limits), frames)
    requires Concat(chunks) == Stream(StandardWire(limits), frames)
    ensures ReceiveMany(StandardWire(limits), [], chunks, |frames|) == Arrivals(frames)
  {
    StandardWireSeals(limits);
    assert [] + Concat(chunks) == Concat(chunks);
    ReassemblyIgnoresChunking(StandardWire(limits), [], chunks, frames);
  }

  /** The guard on the inbound buffer never fires, whatever bytes arrive. */
  lemma InboundGuardIsUnreachable(wire: Wire, inbound: seq<byte>)
    requires wire.limits.Valid() && Decode(inbound, wire) == NeedMoreData
    ensures |inbound| <= wire.limits.maxFrameBytes
  {
    WaitingBufferIsBounded(inbound, wire);
  }

  // ---- The channel as the runtime performs it ---------------------------------------------------------------------

  class FrameChannel {
    const wire: Wire
    var inbound: seq<byte>
    /** What the socket will still deliver. */
    var socket: seq<seq<byte>>
    var framesReceived: nat

    constructor (wire: Wire, socket: seq<seq<byte>>)
      ensures this.wire == wire && this.socket == socket && inbound == [] && framesReceived == 0
    {
      this.wire := wire;
      this.socket := socket;
      inbound := [];
      framesReceived := 0;
    }

    method ReceiveFrame() returns (out: Outcome<Frame>)
      modifies this
      ensures Received(out, inbound, socket) == Receive(wire, old(inbound), old(socket))
      ensures framesReceived == old(framesReceived) + if out.Ok? then 1 else 0
    {
      while true
        invariant Receive(wire, old(inbound), old(socket)) == Receive(wire, inbound, socket)
        invariant framesReceived == old(framesReceived)
        decreases |socket|
      {
        var decoded := DecodeFrame(inbound, wire);
        match decoded {
          case Complete(f, consumed) =>
            inbound := inbound[consumed..];
            framesReceived := framesReceived + 1;
            return Ok(f);
          case Failed(error) =>
            return Err(error);
          case NeedMoreData =>
            if |inbound| > wire.limits.maxFrameBytes {
              return Err(PayloadTooLarge);
            }
            if socket == [] {
              return Err(TransportError);
            }
            inbound, socket := inbound + socket[0], socket[1..];
        }
      }
    }
  }
}
