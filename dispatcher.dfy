/** Dispatcher: hands the serialized arguments of a remote delegate to a
    transport after prepending the marker and the remote id. The transport it
    uses (msgpack/Transport.h) is not part of this model; here it records the
    streams it is given, with their state bits, and whether it was closed.
    The host is little-endian, so a 16-bit value is written low byte first. */
module Dispatchers {
  import opened Bytes
  import opened Options
  import opened MsgHeaders
  import opened MsgStreams

  class MsgTransport {
    /** The streams handed to Send, in order. */
    var sent: seq<OutStream>
    var closed: bool

    constructor ()
      ensures sent == [] && !closed
    {
      sent, closed := [], false;
    }

    method Send(os: OutStream)
      modifies this`sent
      ensures sent == old(sent) + [os]
    {
      sent := sent + [os];
    }

    method Close()
      modifies this`closed
      ensures closed
    {
      closed := true;
    }
  }

  /** The layout of a dispatched message: marker, id, then the arguments. */
  ghost predicate DispatchLayout(msg: seq<u8>, id: u16, args: seq<u8>)
  {
    |msg| == 4 + |args| && FromLE16(msg[0], msg[1]) == MSG_MARKER
    && FromLE16(msg[2], msg[3]) == id && msg[4..] == args
  }

  class Dispatcher {
    var transport: MsgTransport?

    constructor ()
      ensures transport == null
    {
      transport := null;
    }

    method SetTransport(t: MsgTransport?)
      modifies this`transport
      ensures transport == t
    {
      transport := t;
    }

    /** Dispatch: marker 0x55AA, the remote id, then the argument bytes, sent
        only when a transport is set; the result is always 0. Inserting an
        empty argument buffer with `<<` inserts no character and so sets the
        stream's failbit, which the UDP and pipe Send refuse. */
    method Dispatch(args: seq<u8>, id: u16) returns (r: int)
      modifies transport
      ensures r == 0
      ensures transport == old(transport)
      ensures transport != null ==>
                |transport.sent| == |old(transport.sent)| + 1
                && transport.sent[..|old(transport.sent)|] == old(transport.sent)
                && DispatchLayout(transport.sent[|old(transport.sent)|].data, id, args)
                && !transport.sent[|old(transport.sent)|].bad
                && (transport.sent[|old(transport.sent)|].failed <==> |args| == 0)
                && (Sendable(transport.sent[|old(transport.sent)|]) <==> |args| > 0)
      ensures transport != null ==> transport.closed == old(transport.closed)
    {
      var ss: seq<u8> := [];
      ss := ss + LE16(MSG_MARKER);
      ss := ss + LE16(id);
      ss := ss + args;
      var failed := |args| == 0;
      LE16RoundTrip(MSG_MARKER);
      LE16RoundTrip(id);
      assert ss[4..] == args;
      if transport != null {
        transport.Send(OutStream(ss, false, failed));
        assert transport.sent[|old(transport.sent)|] == OutStream(ss, false, failed);
      }
      return 0;
    }

    /** ~Dispatcher: close a set transport, then forget it. */
    method Dispose()
      modifies this`transport, transport
      ensures transport == null
      ensures old(transport) != null ==> old(transport).closed && old(transport).sent == old(transport.sent)
    {
      if transport != null {
        transport.Close();
      }
      transport := null;
    }
  }

  /** What the UDP and pipe receivers make of a dispatched message: the
      marker and id come back, but the receiver then reads a seqNum the
      dispatcher never wrote, so the first two argument bytes are taken as
      the seqNum and the stream is left after them. */
  lemma {:induction false} DispatchedMessageParse(msg: seq<u8>, id: u16, args: seq<u8>)
    requires DispatchLayout(msg, id, args) && |args| >= 2
    ensures ParseMsgHeader(msg).ids == Some((id, FromLE16(args[0], args[1])))
    ensures ParseMsgHeader(msg).stream == InStream(msg, 6, false)
  {
    assert msg[4] == args[0] && msg[5] == args[1];
  }
}
