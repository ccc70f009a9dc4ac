/** The Win32 named-pipe transport of the remote-delegate samples. The pipe
    handle is a Port (null stands for INVALID_HANDLE_VALUE): WriteFile ins
    Port.Write and ReadFile is one Port.ReadInto of up to the buffer size.
    Whether a client is connected is a parameter of Receive. */
module PipeTransport {
  import opened Bytes
  import opened Options
  import opened Ports
  import opened MsgHeaders
  import opened MsgStreams

  /** Size of the receive buffer m_buffer. */
  const BUFFER_SIZE: nat := 4096

  class PipeTransport {
    var pipe: Port?
    const buffer: array<u8>

    ghost predicate Valid()
      reads this
    {
      buffer.Length == BUFFER_SIZE
    }

    constructor ()
      ensures Valid() && fresh(buffer) && pipe == null
    {
      pipe := null;
      buffer := new u8[BUFFER_SIZE](_ => 0);
    }

    /** Create: `handle` is what CreateFile or CreateNamedPipe returned. */
    method Create(handle: Port?) returns (r: int)
      modifies this`pipe
      ensures pipe == handle
      ensures r == (if handle == null then -1 else 0)
    {
      pipe := handle;
      if pipe == null {
        return -1;
      }
      return 0;
    }

    method Close()
      modifies this`pipe
      ensures pipe == null
    {
      pipe := null;
    }

    /** Send: a bad, failed or empty stream is refused; otherwise one
        WriteFile, which must succeed and take every byte. A write on an
        invalid handle fails. */
    method Send(os: OutStream) returns (r: int)
      modifies pipe
      ensures r == 0 || r == -1
      ensures !Sendable(os) || pipe == null ==> r == -1 && (pipe != null ==> pipe.tx == old(pipe.tx))
      ensures Sendable(os) && pipe != null ==>
                var k := old(pipe.Accepts(|os.data|));
                && (r == 0 <==> k == |os.data|)
                && pipe.tx == old(pipe.tx) + os.data[..Written(k)]
      ensures pipe != null ==> pipe.rx == old(pipe.rx) && pipe.writeFault == old(pipe.writeFault)
    {
      var length := |os.data|;
      if os.bad || os.failed || length <= 0 {
        return -1;
      }
      if pipe == null {
        return -1;
      }
      var sendBuf := os.data;
      var sentLen := pipe.Write(sendBuf);
      if sentLen < 0 || sentLen != length {
        return -1;
      }
      return 0;
    }

    /** Receive: no connected client, or a read that fails or returns
        nothing, gives an empty stream. Otherwise the bytes read are streamed
        and parsed as the UDP transport does. */
    method Receive(header: MsgHeader, connected: bool) returns (ins: InStream)
      requires Valid() && header.littleEndian
      modifies header, buffer, pipe
      ensures ins.Valid()
      ensures pipe != null ==> pipe.tx == old(pipe.tx)
      ensures pipe == null || !connected ==>
                ins == Fresh([]) && header.marker == old(header.marker)
                && header.id == old(header.id) && header.seqNum == old(header.seqNum)
                && (pipe != null ==> pipe.rx == old(pipe.rx))
      ensures pipe != null && connected ==>
                var n := Min(Min(BUFFER_SIZE, pipe.readChunk), |old(pipe.rx)|);
                && pipe.rx == old(pipe.rx)[n..]
                && (n == 0 ==> ins == Fresh([]) && header.marker == old(header.marker)
                               && header.id == old(header.id) && header.seqNum == old(header.seqNum))
                && (n > 0 ==>
                      var p := ParseMsgHeader(old(pipe.rx)[..n]);
                      && ins == p.stream && header.marker == p.marker
                      && (p.ids.Some? ==> header.id == p.ids.value.0 && header.seqNum == p.ids.value.1)
                      && (p.ids.None? ==> header.id == old(header.id) && header.seqNum == old(header.seqNum)))
    {
      if pipe == null || !connected {
        return Fresh([]);
      }
      var size := pipe.ReadInto(buffer, 0, BUFFER_SIZE);
      if size <= 0 {
        return Fresh([]);
      }

      ins := Fresh(buffer[..size]);
      var read := Read16(ins);
      ins := read.1;
      header.SetMarker(read.0);
      if header.GetMarker() != MSG_MARKER {
        return ins;
      }
      read := Read16(ins);
      ins := read.1;
      header.SetId(read.0);
      read := Read16(ins);
      ins := read.1;
      header.SetSeqNum(read.0);
      return ins;
    }
  }
}
