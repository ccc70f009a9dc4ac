/** Stm32UartTransport: the DmqHeader frame over an STM32 HAL UART. Each
    header field is byte-swapped before it is copied into the packet, so on
    the little-endian Cortex-M the header travels in big-endian order. The
    receiver resynchronises by discarding bytes up to the marker's high byte.
    The UART handle is a Port: HAL_UART_Transmit is Port.Write and
    HAL_UART_Receive is Port.TakeInto / Port.TakeByte. */
module Stm32Uart {
  import opened Bytes
  import opened Options
  import opened DmqFrame
  import opened Ports
  import opened Monitor

  /** Size of the static receive buffer m_rxBuffer. */
  const BUFFER_SIZE: nat := 512

  /** The sync byte the receiver scans for: the marker's high byte. */
  const MARKER_HIGH: u8 := Hi(MARKER)

  /** Position of the first sync byte in rx, if there is one. */
  function FindSync(rx: seq<u8>): (r: Option<nat>)
    ensures r.Some? ==> r.value < |rx| && rx[r.value] == MARKER_HIGH
    ensures r.Some? ==> forall j :: 0 <= j < r.value ==> rx[j] != MARKER_HIGH
    ensures r.None? ==> forall j :: 0 <= j < |rx| ==> rx[j] != MARKER_HIGH
    decreases |rx|
  {
    if |rx| == 0 then None
    else if rx[0] == MARKER_HIGH then Some(0)
    else match FindSync(rx[1..])
      case None => None
      case Some(i) => Some(i + 1)
  }

  /** Receive on the bytes `rx` the UART delivers: skip to the first sync
      byte, take the 7 header bytes after it, decode all four fields into the
      caller's header and only then check the full marker. A payload above the
      receive buffer is refused. A read that times out consumes what arrived. */
  function ParseFrameBE(rx: seq<u8>, header: DmqHeader, bufferSize: nat): (res: RecvResult)
    ensures res.status == Received ==> |res.payload| == res.header.length
    ensures res.status != Received ==> res.payload == []
  {
    match FindSync(rx)
    case None => RecvResult(ShortHeader, header, [], [])
    case Some(i) =>
      if |rx| - i < HEADER_SIZE then RecvResult(ShortHeader, header, [], [])
      else
        var h := DecodeHeaderBE(rx[i..i + HEADER_SIZE]);
        var body := rx[i + HEADER_SIZE..];
        if h.marker != MARKER then RecvResult(BadMarker, h, [], body)
        else if h.length == 0 then RecvResult(Received, h, [], body)
        else if h.length > bufferSize then RecvResult(TooLong, h, [], body)
        else if |body| < h.length then RecvResult(ShortPayload, h, [], [])
        else RecvResult(Received, h, body[..h.length], body[h.length..])
  }

  /** The header Send transmits: the caller's header with the payload length,
      in network order. */
  function WireHeader(h: DmqHeader, payload: seq<u8>): (r: seq<u8>)
    requires |payload| <= U16_MAX
    ensures |r| == HEADER_SIZE
  {
    EncodeHeaderBE(h.(length := |payload|))
  }

  /** A packet that starts with a sync byte is parsed from its first byte. */
  lemma {:induction false} ParseAlignedFrame(hb: seq<u8>, payload: seq<u8>, rest: seq<u8>, header: DmqHeader)
    requires |hb| == HEADER_SIZE && hb[0] == MARKER_HIGH
    requires DecodeHeaderBE(hb).marker == MARKER && DecodeHeaderBE(hb).length == |payload| <= BUFFER_SIZE
    ensures ParseFrameBE(hb + payload + rest, header, BUFFER_SIZE)
            == RecvResult(Received, DecodeHeaderBE(hb), payload, rest)
  {
    var rx := hb + payload + rest;
    assert FindSync(rx) == Some(0);
    assert rx[0..HEADER_SIZE] == hb;
    var body := rx[HEADER_SIZE..];
    assert body == payload + rest;
    assert body[..|payload|] == payload;
    assert body[|payload|..] == rest;
  }

  /** Decoding what Send transmitted gives back the sender's id, seqNum,
      length and payload, and leaves whatever followed on the UART. */
  lemma FrameRoundTripBE(h: DmqHeader, payload: seq<u8>, rest: seq<u8>, header: DmqHeader)
    requires h.marker == MARKER && |payload| <= BUFFER_SIZE
    ensures ParseFrameBE(WireHeader(h, payload) + payload + rest, header, BUFFER_SIZE)
            == RecvResult(Received, h.(length := |payload|), payload, rest)
  {
    HeaderRoundTripBE(h.(length := |payload|));
    ParseAlignedFrame(WireHeader(h, payload), payload, rest, header);
  }

  /** Bytes without a sync byte in front of a stream are skipped: the
      receiver joins the stream as if they had never arrived. */
  lemma {:induction false} ResyncSkipsNoise(noise: seq<u8>, rx: seq<u8>, header: DmqHeader, bufferSize: nat)
    requires forall j :: 0 <= j < |noise| ==> noise[j] != MARKER_HIGH
    ensures ParseFrameBE(noise + rx, header, bufferSize) == ParseFrameBE(rx, header, bufferSize)
  {
    var s := noise + rx;
    match FindSync(rx)
    case None =>
      assert forall j :: 0 <= j < |s| ==> s[j] != MARKER_HIGH by {
        forall j | 0 <= j < |s| ensures s[j] != MARKER_HIGH {
          if j >= |noise| { assert s[j] == rx[j - |noise|]; }
        }
      }
      assert FindSync(s) == None;
    case Some(i) =>
      var k := |noise| + i;
      assert s[k] == MARKER_HIGH;
      assert forall j :: 0 <= j < k ==> s[j] != MARKER_HIGH by {
        forall j | 0 <= j < k ensures s[j] != MARKER_HIGH {
          if j >= |noise| { assert s[j] == rx[j - |noise|]; }
        }
      }
      assert FindSync(s) == Some(k);
      if |rx| - i >= HEADER_SIZE {
        assert s[k..k + HEADER_SIZE] == rx[i..i + HEADER_SIZE];
        assert s[k + HEADER_SIZE..] == rx[i + HEADER_SIZE..];
      }
  }

  /** The header as Receive reads it: each pair of bytes copied into a
      uint16_t on the little-endian host, then swapped back from network
      order. */
  function FromNetHeader(b: seq<u8>): (h: DmqHeader)
    requires |b| == HEADER_SIZE
    ensures h == DecodeHeaderBE(b)
  {
    SwappedFromLEIsBE(b[0], b[1]);
    SwappedFromLEIsBE(b[2], b[3]);
    SwappedFromLEIsBE(b[4], b[5]);
    SwappedFromLEIsBE(b[6], b[7]);
    DmqHeader(Swap16(FromLE16(b[0], b[1])), Swap16(FromLE16(b[2], b[3])),
              Swap16(FromLE16(b[4], b[5])), Swap16(FromLE16(b[6], b[7])))
  }

  /** The 8-byte packet header Send builds: each field swapped into network
      order and copied into the buffer as it lies in little-endian memory. */
  method PackHeader(h: DmqHeader) returns (packet: array<u8>)
    ensures fresh(packet)
    ensures packet[..] == EncodeHeaderBE(h)
  {
    packet := new u8[HEADER_SIZE](_ => 0);
    var v := Swap16(h.marker);
    packet[0], packet[1] := Lo(v), Hi(v);
    v := Swap16(h.id);
    packet[2], packet[3] := Lo(v), Hi(v);
    v := Swap16(h.seqNum);
    packet[4], packet[5] := Lo(v), Hi(v);
    v := Swap16(h.length);
    packet[6], packet[7] := Lo(v), Hi(v);
    SwappedLEIsBE(h.marker);
    SwappedLEIsBE(h.id);
    SwappedLEIsBE(h.seqNum);
    SwappedLEIsBE(h.length);
  }

  class Stm32UartTransport {
    /** m_huart: null until a handle is given. */
    var uart: Port?
    var monitor: TransportMonitor?
    var sendTransport: Peer
    var recvTransport: Peer
    const rxBuffer: array<u8>
    /** Send calls made on another transport: (header, payload). */
    var forwarded: seq<(DmqHeader, seq<u8>)>

    ghost predicate Valid()
      reads this
    {
      rxBuffer.Length == BUFFER_SIZE
    }

    /** Both constructors: with a handle, or with none (null). */
    constructor (huart: Port?)
      ensures Valid() && fresh(rxBuffer)
      ensures uart == huart && monitor == null && forwarded == []
      ensures sendTransport == ThisTransport && recvTransport == ThisTransport
    {
      uart := huart;
      monitor := null;
      sendTransport, recvTransport := ThisTransport, ThisTransport;
      rxBuffer := new u8[BUFFER_SIZE](_ => 0);
      forwarded := [];
    }

    /** Create stores the handle and succeeds exactly when it is not null. */
    method Create(huart: Port?) returns (r: int)
      modifies this`uart
      ensures uart == huart
      ensures r == (if huart != null then 0 else -1)
    {
      uart := huart;
      r := if uart != null then 0 else -1;
    }

    method SetTransportMonitor(m: TransportMonitor?)
      modifies this`monitor
      ensures monitor == m
    {
      monitor := m;
    }

    method SetSendTransport(p: Peer)
      modifies this`sendTransport
      ensures sendTransport == p
    {
      sendTransport := p;
    }

    method SetRecvTransport(p: Peer)
      modifies this`recvTransport
      ensures recvTransport == p
    {
      recvTransport := p;
    }

    predicate SendAccepted(payload: seq<u8>, streamOk: bool)
      reads this
    {
      streamOk && sendTransport == ThisTransport && |payload| <= U16_MAX
    }

    /** Send: build the swapped 8-byte header in a local buffer, register a
        non-ACK packet with the monitor, transmit the header, then the
        payload if there is one; either transmit falling short gives -1.
        The HAL dereferences its handle, so a send that reaches it needs one;
        the checks before it do not touch the handle. */
    method Send(payload: seq<u8>, streamOk: bool, header: DmqHeader) returns (r: int)
      requires SendAccepted(payload, streamOk) ==> uart != null
      modifies uart, monitor
      ensures r == 0 || r == -1
      ensures uart != null ==> uart.rx == old(uart.rx) && uart.writeFault == old(uart.writeFault)
      ensures !SendAccepted(payload, streamOk) ==>
                r == -1 && (uart != null ==> uart.tx == old(uart.tx))
                && (monitor != null ==> monitor.pending == old(monitor.pending))
      ensures SendAccepted(payload, streamOk) ==>
                var hdr := WireHeader(header, payload);
                var k1 := old(uart.Accepts(HEADER_SIZE));
                var k2 := old(uart.AcceptsAfter(HEADER_SIZE, |payload|));
                var bodySent := k1 == HEADER_SIZE && |payload| > 0;
                && uart.tx == old(uart.tx) + hdr[..Written(k1)] + (if bodySent then payload[..Written(k2)] else [])
                && (r == 0 <==> k1 == HEADER_SIZE && (|payload| == 0 || k2 == |payload|))
                && (monitor != null ==>
                      monitor.pending == if header.id != ACK_REMOTE_ID
                                         then old(monitor.pending)[header.seqNum := header.id]
                                         else old(monitor.pending))
    {
      if !streamOk { return -1; }
      if sendTransport != ThisTransport { return -1; }
      if |payload| > U16_MAX { return -1; }

      var headerCopy := header.(length := |payload|);
      var packet := PackHeader(headerCopy);

      if header.id != ACK_REMOTE_ID && monitor != null {
        monitor.Add(headerCopy.seqNum, headerCopy.id);
      }

      var k := uart.Write(packet[..]);
      if k != HEADER_SIZE { return -1; }
      if |payload| > 0 {
        k := uart.Write(payload);
        if k != |payload| { return -1; }
      }
      return 0;
    }

    /** Steps 1 and 2 of Receive: discard bytes up to and including the
        first sync byte, keep it as the first header byte and read the other
        seven behind it. */
    method SyncAndReadHeader(headerBuf: array<u8>) returns (ok: bool)
      requires uart != null && headerBuf.Length == HEADER_SIZE
      modifies uart`rx, headerBuf
      ensures ok <==> FindSync(old(uart.rx)).Some? && |old(uart.rx)| - FindSync(old(uart.rx)).value >= HEADER_SIZE
      ensures ok ==> var i := FindSync(old(uart.rx)).value;
                     headerBuf[..] == old(uart.rx)[i..i + HEADER_SIZE] && uart.rx == old(uart.rx)[i + HEADER_SIZE..]
      ensures !ok ==> uart.rx == []
    {
      ghost var rx0 := uart.rx;
      ghost var skipped: nat := 0;
      while true
        invariant skipped <= |rx0| && uart.rx == rx0[skipped..]
        invariant forall j :: 0 <= j < skipped ==> rx0[j] != MARKER_HIGH
        decreases |uart.rx|
      {
        var got, b := uart.TakeByte();
        if !got {
          assert FindSync(rx0) == None;
          return false;
        }
        skipped := skipped + 1;
        if b == MARKER_HIGH {
          headerBuf[0] := b;
          break;
        }
      }
      ghost var i := skipped - 1;
      assert FindSync(rx0) == Some(i);
      assert headerBuf[..1] == rx0[i..i + 1];

      ok := uart.TakeInto(headerBuf, 1, HEADER_SIZE - 1);
      if ok {
        assert headerBuf[..] == headerBuf[..1] + headerBuf[1..HEADER_SIZE];
        assert rx0[i..i + HEADER_SIZE] == rx0[i..i + 1] + rx0[i + 1..i + HEADER_SIZE];
      }
    }

    /** Receive: scan for the sync byte, read the rest of the header, decode
        and check the marker, replace the stream by the payload when there is
        one, then settle the ACK as the other transports do. Only a receive
        on this transport reaches the HAL and so needs a handle. */
    method Receive(stream: seq<u8>, header: DmqHeader) returns (r: int, streamOut: seq<u8>, headerOut: DmqHeader)
      requires Valid() && (recvTransport == ThisTransport ==> uart != null)
      modifies uart, monitor, rxBuffer, this`forwarded
      ensures Valid()
      ensures r == 0 || r == -1
      ensures recvTransport != ThisTransport ==>
                r == -1 && streamOut == stream && headerOut == header && forwarded == old(forwarded)
                && (uart != null ==> uart.rx == old(uart.rx) && uart.tx == old(uart.tx))
                && (monitor != null ==> monitor.pending == old(monitor.pending))
      ensures recvTransport == ThisTransport ==>
                var res := ParseFrameBE(old(uart.rx), header, BUFFER_SIZE);
                var acked := res.status == Received && res.header.id != ACK_REMOTE_ID
                             && monitor != null && sendTransport != NoPeer;
                && (r == 0 <==> res.status == Received)
                && headerOut == res.header
                && streamOut == (if res.status == Received && res.header.length > 0 then res.payload else stream)
                && uart.rx == res.rest
                && (monitor != null ==>
                      monitor.pending == if res.status == Received && res.header.id == ACK_REMOTE_ID
                                         then old(monitor.pending) - {res.header.seqNum}
                                         else old(monitor.pending))
                && (acked && sendTransport == ThisTransport ==>
                      var ack := WireHeader(AckHeader(res.header.seqNum), []);
                      uart.tx == old(uart.tx) + ack[..Written(old(uart.Accepts(HEADER_SIZE)))])
                && (acked && sendTransport == OtherTransport ==>
                      forwarded == old(forwarded) + [(AckHeader(res.header.seqNum), [])])
                && (!(acked && sendTransport == ThisTransport) ==> uart.tx == old(uart.tx))
                && (!(acked && sendTransport == OtherTransport) ==> forwarded == old(forwarded))
    {
      streamOut, headerOut := stream, header;
      if recvTransport != ThisTransport { return -1, streamOut, headerOut; }

      ghost var rx0 := uart.rx;
      var headerBuf := new u8[HEADER_SIZE](_ => 0);
      var ok := SyncAndReadHeader(headerBuf);
      if !ok { return -1, streamOut, headerOut; }
      ghost var i := FindSync(rx0).value;
      headerOut := FromNetHeader(headerBuf[..]);

      if headerOut.marker != MARKER { return -1, streamOut, headerOut; }

      var len := headerOut.length;
      if len > 0 {
        if len > BUFFER_SIZE { return -1, streamOut, headerOut; }
        ok := uart.TakeInto(rxBuffer, 0, len);
        if !ok { return -1, streamOut, headerOut; }
        streamOut := rxBuffer[..len];
      }

      SettleAck(headerOut);
      return 0, streamOut, headerOut;
    }

    /** Step 6 of Receive: an ACK clears its seqNum from the monitor; any
        other packet is answered with an ACK when a monitor and a send
        transport exist. */
    method SettleAck(h: DmqHeader)
      requires uart != null
      modifies uart, monitor, this`forwarded
      ensures uart.rx == old(uart.rx)
      ensures monitor != null ==>
                monitor.pending == if h.id == ACK_REMOTE_ID then old(monitor.pending) - {h.seqNum}
                                   else old(monitor.pending)
      ensures var acked := h.id != ACK_REMOTE_ID && monitor != null && sendTransport != NoPeer;
              && (acked && sendTransport == ThisTransport ==>
                    var ack := WireHeader(AckHeader(h.seqNum), []);
                    uart.tx == old(uart.tx) + ack[..Written(old(uart.Accepts(HEADER_SIZE)))])
              && (!(acked && sendTransport == ThisTransport) ==> uart.tx == old(uart.tx))
              && forwarded == old(forwarded)
                              + (if acked && sendTransport == OtherTransport
                                 then [(AckHeader(h.seqNum), [])] else [])
    {
      if h.id == ACK_REMOTE_ID {
        if monitor != null { monitor.Remove(h.seqNum); }
      } else if monitor != null && sendTransport != NoPeer {
        if sendTransport == ThisTransport {
          var _ := Send([], true, AckHeader(h.seqNum));
        } else {
          forwarded := forwarded + [(AckHeader(h.seqNum), [])];
        }
      }
    }
  }
}
