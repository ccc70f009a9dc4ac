/** The Win32 UDP transport of the remote-delegate samples: Send puts a whole
    stream into one datagram; Receive takes one datagram and parses its
    MsgHeader. The socket is the log of datagrams sent; the outcomes of
    malloc, sendto and recvfrom are parameters. */
module UdpTransport {
  import opened Bytes
  import opened Options
  import opened MsgHeaders
  import opened MsgStreams

  /** Size of the receive buffer m_buffer. */
  const BUFFER_SIZE: nat := 4096

  class UdpTransport {
    /** The datagrams sendto delivered, in order. */
    var sent: seq<seq<u8>>
    const buffer: array<u8>

    ghost predicate Valid()
      reads this
    {
      buffer.Length == BUFFER_SIZE
    }

    constructor ()
      ensures Valid() && fresh(buffer) && sent == []
    {
      sent := [];
      buffer := new u8[BUFFER_SIZE](_ => 0);
    }

    /** Send: a bad, failed or empty stream is refused; otherwise the stream's
        bytes go out as one datagram unless the copy buffer cannot be
        allocated or sendto fails. */
    method Send(os: OutStream, allocOk: bool, sendOk: bool) returns (r: int)
      modifies this`sent
      ensures r == 0 || r == -1
      ensures r == 0 <==> Sendable(os) && allocOk && sendOk
      ensures sent == old(sent) + (if r == 0 then [os.data] else [])
    {
      var length := |os.data|;
      if os.bad || os.failed || length <= 0 {
        return -1;
      }
      if !allocOk {
        return -1;
      }
      var sendBuf := os.data;
      if !sendOk {
        return -1;
      }
      sent := sent + [sendBuf];
      return 0;
    }

    /** Receive: `datagram` is what recvfrom delivers (None on an error). An
        error gives an empty stream. Otherwise the datagram is copied into
        the buffer and streamed; the marker is stored in the header, and
        only when it matches are the id and seqNum read and stored. */
    method Receive(header: MsgHeader, datagram: Option<seq<u8>>) returns (ins: InStream)
      requires Valid() && header.littleEndian
      requires datagram.Some? ==> |datagram.value| <= BUFFER_SIZE
      modifies header, buffer
      ensures ins.Valid()
      ensures datagram.None? ==>
                ins == Fresh([]) && header.marker == old(header.marker)
                && header.id == old(header.id) && header.seqNum == old(header.seqNum)
      ensures datagram.Some? ==>
                var p := ParseMsgHeader(datagram.value);
                && ins == p.stream && header.marker == p.marker
                && (p.ids.Some? ==> header.id == p.ids.value.0 && header.seqNum == p.ids.value.1)
                && (p.ids.None? ==> header.id == old(header.id) && header.seqNum == old(header.seqNum))
    {
      if datagram.None? {
        return Fresh([]);
      }
      var d := datagram.value;
      var size := |d|;
      var k := 0;
      while k < size
        invariant 0 <= k <= size
        invariant buffer[..k] == d[..k]
        modifies buffer
      {
        buffer[k] := d[k];
        k := k + 1;
      }
      assert buffer[..size] == d;

      ins := Fresh(buffer[..size]);
      var read := Read16(ins);
      ins := read.1;
      header.SetMarker(read.0);
      if header.GetMarker() != MSG_MARKER {
        return ins;
      }
      read := Read16(ins);
      ins := read.1;
      header.SetId(read.0);
      read := Read16(ins);
      ins := read.1;
      header.SetSeqNum(read.0);
      return ins;
    }
  }
}
