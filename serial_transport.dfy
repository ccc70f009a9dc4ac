/** SerialTransport: DmqHeader framing over a serial port, with ACK bookkeeping
    through a TransportMonitor. The port is the byte source and sink of module
    Ports; the re-dispatch onto the transport's own thread and the
    libserialport set-up are outside the model. */
module SerialTransport {
  import opened Bytes
  import opened DmqFrame
  import opened Ports
  import opened Monitor

  /** Size of the receive buffer m_buffer. */
  const BUFFER_SIZE: nat := 4096


  class SerialTransport {
    /** m_port: null when no port is open. */
    var port: Port?
    var monitor: TransportMonitor?
    var sendTransport: Peer
    var recvTransport: Peer
    const buffer: array<u8>
    /** Send calls made on another transport: (header, payload). */
    var forwarded: seq<(DmqHeader, seq<u8>)>

    ghost predicate Valid()
      reads this
    {
      buffer.Length == BUFFER_SIZE
    }

    /** A transport on an already opened port (or none); it sends and receives
        through itself and has no monitor. */
    constructor (p: Port?)
      ensures Valid() && fresh(buffer)
      ensures port == p && monitor == null && forwarded == []
      ensures sendTransport == ThisTransport && recvTransport == ThisTransport
    {
      port := p;
      monitor := null;
      sendTransport, recvTransport := ThisTransport, ThisTransport;
      buffer := new u8[BUFFER_SIZE](_ => 0);
      forwarded := [];
    }

    method SetTransportMonitor(m: TransportMonitor?)
      modifies this`monitor
      ensures monitor == m
    {
      monitor := m;
    }

    method SetSendTransport(p: Peer)
      modifies this`sendTransport
      ensures sendTransport == p
    {
      sendTransport := p;
    }

    method SetRecvTransport(p: Peer)
      modifies this`recvTransport
      ensures recvTransport == p
    {
      recvTransport := p;
    }

    /** The guards Send passes before it touches anything. */
    predicate SendAccepted(payload: seq<u8>, streamOk: bool)
      reads this
    {
      port != null && streamOk && sendTransport == ThisTransport && |payload| <= U16_MAX
    }

    /** Send: frame the payload behind a copy of the header whose length is the
        payload length, register a non-ACK packet with the monitor, then write
        the whole packet in one call; 0 only if every byte went out. */
    method Send(payload: seq<u8>, streamOk: bool, header: DmqHeader) returns (r: int)
      requires Valid()
      modifies port, monitor
      ensures Valid()
      ensures r == 0 || r == -1
      ensures port != null ==> port.rx == old(port.rx) && port.writeFault == old(port.writeFault)
      ensures !SendAccepted(payload, streamOk) ==>
                r == -1 && (port != null ==> port.tx == old(port.tx))
                && (monitor != null ==> monitor.pending == old(monitor.pending))
      ensures SendAccepted(payload, streamOk) ==>
                var frame := FrameLE(header, payload);
                var k := old(port.Accepts(|frame|));
                && port.tx == old(port.tx) + frame[..Written(k)]
                && (r == 0 <==> k == |frame|)
                && (monitor != null ==>
                      monitor.pending == if header.id != ACK_REMOTE_ID
                                         then old(monitor.pending)[header.seqNum := header.id]
                                         else old(monitor.pending))
    {
      if port == null { return -1; }
      if !streamOk { return -1; }
      if sendTransport != ThisTransport { return -1; }
      if |payload| > U16_MAX { return -1; }

      var headerCopy := header.(length := |payload|);
      var ss: seq<u8> := [];
      ss := ss + LE16(headerCopy.marker);
      ss := ss + LE16(headerCopy.id);
      ss := ss + LE16(headerCopy.seqNum);
      ss := ss + LE16(headerCopy.length);
      ss := ss + payload;
      assert ss == FrameLE(header, payload);

      if headerCopy.id != ACK_REMOTE_ID && monitor != null {
        monitor.Add(headerCopy.seqNum, headerCopy.id);
      }

      var result := port.Write(ss);
      if result < 0 || result != |ss| {
        return -1;
      }
      return 0;
    }

    /** ReadExact: keep reading until `size` bytes are in dest; a read that
        returns nothing ends it with failure. */
    method ReadExact(dest: array<u8>, size: nat) returns (ok: bool)
      requires port != null && size <= dest.Length
      modifies port`rx, dest
      ensures ok <==> size <= |old(port.rx)|
      ensures ok ==> dest[..size] == old(port.rx)[..size] && port.rx == old(port.rx)[size..]
      ensures !ok ==> port.rx == []
    {
      var total := 0;
      while total < size
        invariant 0 <= total <= size && total <= |old(port.rx)|
        invariant port.rx == old(port.rx)[total..]
        invariant dest[..total] == old(port.rx)[..total]
        decreases size - total
      {
          var ret := port.ReadInto(dest, total, size - total);
        if ret == 0 {
          return false;
        }
        assert dest[..total + ret] == dest[..total] + dest[total..total + ret];
        assert old(port.rx)[..total + ret] == old(port.rx)[..total] + old(port.rx)[total..total + ret];
        total := total + ret;
      }
      return true;
    }

    /** Receive: read the 8-byte header, check the marker, read `length`
        payload bytes into the caller's stream, then settle the ACK: an ACK
        clears its seqNum from the monitor, any other packet is acknowledged
        through the send transport. */
    method Receive(stream: seq<u8>, header: DmqHeader) returns (r: int, streamOut: seq<u8>, headerOut: DmqHeader)
      requires Valid()
      modifies port, monitor, buffer, this`forwarded
      ensures Valid()
      ensures r == 0 || r == -1
      ensures port == null || recvTransport != ThisTransport ==>
                r == -1 && streamOut == stream && headerOut == header && forwarded == old(forwarded)
                && (port != null ==> port.rx == old(port.rx) && port.tx == old(port.tx))
                && (monitor != null ==> monitor.pending == old(monitor.pending))
      ensures port != null && recvTransport == ThisTransport ==>
                var res := ParseFrameLE(old(port.rx), header, BUFFER_SIZE);
                var acked := res.status == Received && res.header.id != ACK_REMOTE_ID
                             && monitor != null && sendTransport != NoPeer;
                && (r == 0 <==> res.status == Received)
                && headerOut == res.header
                && streamOut == stream + res.payload
                && port.rx == res.rest
                && (monitor != null ==>
                      monitor.pending == if res.status == Received && res.header.id == ACK_REMOTE_ID
                                         then old(monitor.pending) - {res.header.seqNum}
                                         else old(monitor.pending))
                && (acked && sendTransport == ThisTransport ==>
                      var ack := FrameLE(AckHeader(res.header.seqNum), []);
                      port.tx == old(port.tx) + ack[..Written(old(port.Accepts(|ack|)))])
                && (acked && sendTransport == OtherTransport ==>
                      forwarded == old(forwarded) + [(AckHeader(res.header.seqNum), [])])
                && (!(acked && sendTransport == ThisTransport) ==> port.tx == old(port.tx))
                && (!(acked && sendTransport == OtherTransport) ==> forwarded == old(forwarded))
    {
      streamOut, headerOut := stream, header;
      if port == null { return -1, streamOut, headerOut; }
      if recvTransport != ThisTransport { return -1, streamOut, headerOut; }

      ghost var rx0 := port.rx;
      var headerBuf := new u8[HEADER_SIZE](_ => 0);
      var ok := ReadExact(headerBuf, HEADER_SIZE);
      if !ok { return -1, streamOut, headerOut; }
      assert headerBuf[..] == rx0[..HEADER_SIZE];
      ghost var h := DecodeHeaderLE(rx0[..HEADER_SIZE]);

      var marker := FromLE16(headerBuf[0], headerBuf[1]);
      headerOut := headerOut.(marker := marker);
      if marker != MARKER {
        return -1, streamOut, headerOut;
      }
      var id := FromLE16(headerBuf[2], headerBuf[3]);
      headerOut := headerOut.(id := id);
      var seqNum := FromLE16(headerBuf[4], headerBuf[5]);
      headerOut := headerOut.(seqNum := seqNum);
      var length := FromLE16(headerBuf[6], headerBuf[7]);
      headerOut := headerOut.(length := length);
      assert headerOut == h;

      if length > 0 {
        if length > BUFFER_SIZE {
          return -1, streamOut, headerOut;
        }
        ok := ReadExact(buffer, length);
        if !ok {
          return -1, streamOut, headerOut;
        }
        streamOut := streamOut + buffer[..length];
      }

      if id == ACK_REMOTE_ID {
        if monitor != null {
          monitor.Remove(seqNum);
        }
      } else if monitor != null && sendTransport != NoPeer {
        if sendTransport == ThisTransport {
          var _ := Send([], true, AckHeader(seqNum));
        } else {
          forwarded := forwarded + [(AckHeader(seqNum), [])];
        }
      }
      return 0, streamOut, headerOut;
    }
  }
}
