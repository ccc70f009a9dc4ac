/** TcpTransport (Win32): the DmqHeader framing of the serial transport over a
    TCP stream socket. A server accepts its client lazily, on the first
    Receive that finds a connection waiting; Send keeps calling send until
    the whole packet is out. The connected socket is a Port; WinSock set-up,
    select timing and the thread re-dispatch are outside the model. */
module TcpTransport {
  import opened Bytes
  import opened DmqFrame
  import opened Ports
  import opened Monitor

  /** Size of the receive buffer m_buffer. */
  const BUFFER_SIZE: nat := 4096

  /** TcpTransport::Type */
  datatype Type = Server | Client

  class TcpTransport {
    const kind: Type
    /** m_clientSocket: null stands for INVALID_SOCKET. */
    var client: Port?
    var monitor: TransportMonitor?
    var sendTransport: Peer
    var recvTransport: Peer
    const buffer: array<u8>
    /** Send calls made on another transport: (header, payload). */
    var forwarded: seq<(DmqHeader, seq<u8>)>

    ghost predicate Valid()
      reads this
    {
      buffer.Length == BUFFER_SIZE
    }

    /** A transport after Create: a client holds its connected socket, a
        server has none yet. Send and receive both go through itself. */
    constructor (kind: Type, connected: Port?)
      ensures Valid() && fresh(buffer)
      ensures this.kind == kind && client == connected && monitor == null && forwarded == []
      ensures sendTransport == ThisTransport && recvTransport == ThisTransport
    {
      this.kind := kind;
      client := connected;
      monitor := null;
      sendTransport, recvTransport := ThisTransport, ThisTransport;
      buffer := new u8[BUFFER_SIZE](_ => 0);
      forwarded := [];
    }

    method SetTransportMonitor(m: TransportMonitor?)
      modifies this`monitor
      ensures monitor == m
    {
      monitor := m;
    }

    method SetSendTransport(p: Peer)
      modifies this`sendTransport
      ensures sendTransport == p
    {
      sendTransport := p;
    }

    method SetRecvTransport(p: Peer)
      modifies this`recvTransport
      ensures recvTransport == p
    {
      recvTransport := p;
    }

    /** Send: frame the payload, push it out with as many send calls as the
        socket needs, and only then register a non-ACK packet with the
        monitor. A socket error abandons the packet with -1, leaving on the
        wire whatever part of the frame had already gone out. */
    method Send(payload: seq<u8>, header: DmqHeader) returns (r: int)
      modifies client, monitor
      ensures r == 0 || r == -1
      ensures client != null ==> client.rx == old(client.rx) && client.writeFault == old(client.writeFault)
      ensures client == null || |payload| > U16_MAX ==>
                r == -1 && (client != null ==> client.tx == old(client.tx))
                && (monitor != null ==> monitor.pending == old(monitor.pending))
      ensures client != null && |payload| <= U16_MAX ==>
                var frame := FrameLE(header, payload);
                var k := old(client.Deliverable(|frame|));
                && client.tx == old(client.tx) + frame[..k]
                && (r == 0 <==> k == |frame|)
                && (monitor != null ==>
                      monitor.pending == if r == 0 && header.id != ACK_REMOTE_ID
                                         then old(monitor.pending)[header.seqNum := header.id]
                                         else old(monitor.pending))
    {
      if client == null { return -1; }

      if |payload| > U16_MAX { return -1; }
      var headerCopy := header.(length := |payload|);

      var ss: seq<u8> := [];
      ss := ss + LE16(headerCopy.marker);
      ss := ss + LE16(headerCopy.id);
      ss := ss + LE16(headerCopy.seqNum);
      ss := ss + LE16(headerCopy.length);
      ss := ss + payload;
      assert ss == FrameLE(header, payload);

      var data := ss;
      var remaining := |data|;
      ghost var k := old(client.Deliverable(|data|));
      while remaining > 0
        invariant 0 <= remaining <= |data| && |data| - remaining <= k
        invariant client.tx == old(client.tx) + data[..|data| - remaining]
        invariant client.rx == old(client.rx) && client.writeFault == old(client.writeFault)
        invariant monitor != null ==> monitor.pending == old(monitor.pending)
        decreases remaining
      {
        var sent := client.Write(data[|data| - remaining..]);
        if sent < 0 { return -1; }
        assert data[..|data| - remaining] + data[|data| - remaining..][..sent] == data[..|data| - remaining + sent];
        remaining := remaining - sent;
      }
      assert data[..|data|] == data;

      if headerCopy.id != ACK_REMOTE_ID && monitor != null {
        monitor.Add(headerCopy.seqNum, headerCopy.id);
      }
      return 0;
    }

    /** ReadExact: keep calling recv until `size` bytes are in dest; a call
        that returns nothing or an error ends it with failure. */
    method ReadExact(dest: array<u8>, size: nat) returns (ok: bool)
      requires client != null && size <= dest.Length
      modifies client`rx, dest
      ensures ok <==> size <= |old(client.rx)|
      ensures ok ==> dest[..size] == old(client.rx)[..size] && client.rx == old(client.rx)[size..]
      ensures !ok ==> client.rx == []
    {
      var total := 0;
      while total < size
        invariant 0 <= total <= size && total <= |old(client.rx)|
        invariant client.rx == old(client.rx)[total..]
        invariant dest[..total] == old(client.rx)[..total]
        decreases size - total
      {
        var got := client.ReadInto(dest, total, size - total);
        if got == 0 {
          return false;
        }
        assert dest[..total + got] == dest[..total] + dest[total..total + got];
        assert old(client.rx)[..total + got] == old(client.rx)[..total] + old(client.rx)[total..total + got];
        total := total + got;
      }
      return true;
    }

    /** Receive. `waiting` is the connection a 10 ms poll of the listening
        socket would accept, or null when none is pending or accept fails; a
        server without a client takes it. Then the framing and ACK logic of
        the serial transport, with no check of the receive transport. */
    method Receive(stream: seq<u8>, header: DmqHeader, waiting: Port?)
        returns (r: int, streamOut: seq<u8>, headerOut: DmqHeader)
      requires Valid()
      modifies this`client, this`forwarded, client, waiting, monitor, buffer
      ensures Valid()
      ensures r == 0 || r == -1
      ensures client == if kind == Server && old(client) == null then waiting else old(client)
      ensures client == null ==>
                r == -1 && streamOut == stream && headerOut == header && forwarded == old(forwarded)
                && (monitor != null ==> monitor.pending == old(monitor.pending))
      ensures client != null ==>
                var c := client;
                var res := ParseFrameLE(old(c.rx), header, BUFFER_SIZE);
                var acked := res.status == Received && res.header.id != ACK_REMOTE_ID
                             && monitor != null && sendTransport != NoPeer;
                && (r == 0 <==> res.status == Received)
                && headerOut == res.header
                && streamOut == stream + res.payload
                && client.rx == res.rest
                && (monitor != null ==>
                      monitor.pending == if res.status == Received && res.header.id == ACK_REMOTE_ID
                                         then old(monitor.pending) - {res.header.seqNum}
                                         else old(monitor.pending))
                && client.tx == old(c.tx)
                                + (if acked && sendTransport == ThisTransport
                                   then FrameLE(AckHeader(res.header.seqNum), [])[..old(c.Deliverable(HEADER_SIZE))]
                                   else [])
                && forwarded == old(forwarded)
                                + (if acked && sendTransport == OtherTransport
                                   then [(AckHeader(res.header.seqNum), [])] else [])
    {
      streamOut, headerOut := stream, header;
      if kind == Server && client == null {
        client := waiting;
      }
      if client == null { return -1, streamOut, headerOut; }

      r, streamOut, headerOut := ReadFrame(stream, header);
      if r == 0 {
        SettleAck(headerOut);
      }
    }

    /** The framing part of Receive: the 8-byte header, the marker check,
        then `length` payload bytes into the caller's stream. */
    method ReadFrame(stream: seq<u8>, header: DmqHeader) returns (r: int, streamOut: seq<u8>, headerOut: DmqHeader)
      requires Valid() && client != null
      modifies client`rx, buffer
      ensures var res := ParseFrameLE(old(client.rx), header, BUFFER_SIZE);
              && (r == 0 <==> res.status == Received) && (r == 0 || r == -1)
              && headerOut == res.header
              && streamOut == stream + res.payload
              && client.rx == res.rest
    {
      streamOut, headerOut := stream, header;
      ghost var rx0 := client.rx;
      var ok, h := ReadHeader();
      if !ok { return -1, streamOut, headerOut; }
      headerOut := headerOut.(marker := h.marker);
      if headerOut.marker != MARKER { return -1, streamOut, headerOut; }
      headerOut := headerOut.(id := h.id, seqNum := h.seqNum, length := h.length);
      assert headerOut == h;
      assert client.rx == rx0[HEADER_SIZE..];

      var length := headerOut.length;
      if length > 0 {
        if length > BUFFER_SIZE { return -1, streamOut, headerOut; }
        ok := ReadExact(buffer, length);
        if !ok { return -1, streamOut, headerOut; }
        streamOut := streamOut + buffer[..length];
      }
      return 0, streamOut, headerOut;
    }

    /** Step 1 of Receive: the 8 header bytes, decoded field by field. */
    method ReadHeader() returns (ok: bool, h: DmqHeader)
      requires client != null
      modifies client`rx
      ensures ok <==> HEADER_SIZE <= |old(client.rx)|
      ensures ok ==> h == DecodeHeaderLE(old(client.rx)[..HEADER_SIZE]) && client.rx == old(client.rx)[HEADER_SIZE..]
      ensures !ok ==> client.rx == []
    {
      var headerBuf := new u8[HEADER_SIZE](_ => 0);
      ok := ReadExact(headerBuf, HEADER_SIZE);
      if !ok { return false, DmqHeader(0, 0, 0, 0); }
      assert headerBuf[..] == old(client.rx)[..HEADER_SIZE];
      h := DmqHeader(FromLE16(headerBuf[0], headerBuf[1]), FromLE16(headerBuf[2], headerBuf[3]),
                     FromLE16(headerBuf[4], headerBuf[5]), FromLE16(headerBuf[6], headerBuf[7]));
    }

    /** The ACK part of Receive: an ACK clears its seqNum from the monitor;
        any other packet is answered with an ACK when a monitor and a send
        transport exist. */
    method SettleAck(h: DmqHeader)
      requires client != null
      modifies client, monitor, this`forwarded
      ensures client.rx == old(client.rx)
      ensures monitor != null ==>
                monitor.pending == if h.id == ACK_REMOTE_ID then old(monitor.pending) - {h.seqNum}
                                   else old(monitor.pending)
      ensures var acked := h.id != ACK_REMOTE_ID && monitor != null && sendTransport != NoPeer;
              && client.tx == old(client.tx)
                              + (if acked && sendTransport == ThisTransport
                                 then FrameLE(AckHeader(h.seqNum), [])[..old(client.Deliverable(HEADER_SIZE))]
                                 else [])
              && forwarded == old(forwarded)
                              + (if acked && sendTransport == OtherTransport
                                 then [(AckHeader(h.seqNum), [])] else [])
    {
      if h.id == ACK_REMOTE_ID {
        if monitor != null { monitor.Remove(h.seqNum); }
      } else if monitor != null && sendTransport != NoPeer {
        if sendTransport == ThisTransport {
          var _ := Send([], AckHeader(h.seqNum));
        } else {
          forwarded := forwarded + [(AckHeader(h.seqNum), [])];
        }
      }
    }
  }
}
