/** The 8-byte DmqHeader frame shared by the serial, TCP and STM32 UART
    transports and by the Python client: marker, id, seqNum and length, two
    bytes each, followed by `length` payload bytes. DmqHeader.h is not part of
    this model; its constants are the ones the transports and config.py use. */
module DmqFrame {
  import opened Bytes

  /** The sync marker (config.py DMQ_MARKER, MsgHeader::MARKER). */
  const MARKER: u16 := 0x55AA
  /** DmqHeader::HEADER_SIZE: four 16-bit fields. */
  const HEADER_SIZE: nat := 8
  /** The remote id reserved for acknowledgements (RemoteId.ACK in config.py). */
  const ACK_REMOTE_ID: u16 := 0

  datatype DmqHeader = DmqHeader(marker: u16, id: u16, seqNum: u16, length: u16)

  /** Which transport a transport forwards its sends or receives to
      (m_sendTransport / m_recvTransport): none, itself, or another one. */
  datatype Peer = NoPeer | ThisTransport | OtherTransport

  /** A default-constructed header: marker set, every other field zero. */
  function DefaultHeader(): DmqHeader
  {
    DmqHeader(MARKER, 0, 0, 0)
  }

  /** The header of an automatic acknowledgement: a default header whose id is
      the ACK id and whose seqNum echoes the received one. */
  function AckHeader(seqNum: u16): (h: DmqHeader)
    ensures h.marker == MARKER && h.id == ACK_REMOTE_ID && h.seqNum == seqNum && h.length == 0
  {
    DefaultHeader().(id := ACK_REMOTE_ID, seqNum := seqNum)
  }

  // ---------------------------------------------------------------------------
  // Little-endian wire order (serial, Win32 TCP, Python client)
  // ---------------------------------------------------------------------------

  function EncodeHeaderLE(h: DmqHeader): (r: seq<u8>)
    ensures |r| == HEADER_SIZE
  {
    LE16(h.marker) + LE16(h.id) + LE16(h.seqNum) + LE16(h.length)
  }

  function DecodeHeaderLE(b: seq<u8>): DmqHeader
    requires |b| == HEADER_SIZE
  {
    DmqHeader(FromLE16(b[0], b[1]), FromLE16(b[2], b[3]), FromLE16(b[4], b[5]), FromLE16(b[6], b[7]))
  }

  /** Decoding an encoded header gives the header back. */
  lemma HeaderRoundTripLE(h: DmqHeader)
    ensures DecodeHeaderLE(EncodeHeaderLE(h)) == h
  {
    LE16RoundTrip(h.marker);
    LE16RoundTrip(h.id);
    LE16RoundTrip(h.seqNum);
    LE16RoundTrip(h.length);
  }

  /** The packet a transport's Send writes: the caller's header with its length
      replaced by the payload length, then the payload. */
  function FrameLE(h: DmqHeader, payload: seq<u8>): (r: seq<u8>)
    requires |payload| <= U16_MAX
    ensures |r| == HEADER_SIZE + |payload|
    ensures r[..HEADER_SIZE] == EncodeHeaderLE(h.(length := |payload|))
    ensures r[HEADER_SIZE..] == payload
  {
    var r := EncodeHeaderLE(h.(length := |payload|)) + payload;
    assert r[..HEADER_SIZE] == EncodeHeaderLE(h.(length := |payload|));
    r
  }

  // ---------------------------------------------------------------------------
  // What a receiver makes of the bytes arriving on a port
  // ---------------------------------------------------------------------------

  datatype RecvStatus = Received | ShortHeader | BadMarker | TooLong | ShortPayload

  /** The outcome of one Receive: status, the caller's header after the setters
      ran, the payload bytes appended to the caller's stream, and what is left
      on the port. */
  datatype RecvResult = RecvResult(status: RecvStatus, header: DmqHeader, payload: seq<u8>, rest: seq<u8>)

  /** Receive of the serial and TCP transports on the bytes `rx` available on
      the port. A read that cannot be completed consumes everything there is.
      The header out-parameter gets its marker before the marker check and its
      other fields after it; a payload above the receive buffer is refused. */
  function ParseFrameLE(rx: seq<u8>, header: DmqHeader, bufferSize: nat): (res: RecvResult)
    ensures res.status == Received ==> |res.payload| == res.header.length
    ensures res.status != Received ==> res.payload == []
  {
    if |rx| < HEADER_SIZE then RecvResult(ShortHeader, header, [], [])
    else
      var h := DecodeHeaderLE(rx[..HEADER_SIZE]);
      var body := rx[HEADER_SIZE..];
      if h.marker != MARKER then RecvResult(BadMarker, header.(marker := h.marker), [], body)
      else if h.length == 0 then RecvResult(Received, h, [], body)
      else if h.length > bufferSize then RecvResult(TooLong, h, [], body)
      else if |body| < h.length then RecvResult(ShortPayload, h, [], [])
      else RecvResult(Received, h, body[..h.length], body[h.length..])
  }

  /** Decoding what Send wrote gives back the sender's id, seqNum, length and
      payload, and leaves whatever followed the packet on the port. */
  lemma {:induction false} FrameRoundTripLE(h: DmqHeader, payload: seq<u8>, rest: seq<u8>, header: DmqHeader, bufferSize: nat)
    requires h.marker == MARKER && |payload| <= bufferSize && |payload| <= U16_MAX
    ensures ParseFrameLE(FrameLE(h, payload) + rest, header, bufferSize)
            == RecvResult(Received, h.(length := |payload|), payload, rest)
  {
    var h2 := h.(length := |payload|);
    var rx := FrameLE(h, payload) + rest;
    FrameSplit(h, payload, rest);
    HeaderRoundTripLE(h2);
    var body := rx[HEADER_SIZE..];
    assert body[..|payload|] == payload;
    assert body[|payload|..] == rest;
  }

  /** A packet followed by more bytes splits back into its header and the rest. */
  lemma FrameSplit(h: DmqHeader, payload: seq<u8>, rest: seq<u8>)
    requires |payload| <= U16_MAX
    ensures (FrameLE(h, payload) + rest)[..HEADER_SIZE] == EncodeHeaderLE(h.(length := |payload|))
    ensures (FrameLE(h, payload) + rest)[HEADER_SIZE..] == payload + rest
  {
    var f := FrameLE(h, payload);
    assert (f + rest)[..HEADER_SIZE] == f[..HEADER_SIZE];
    assert (f + rest)[HEADER_SIZE..] == f[HEADER_SIZE..] + rest;
  }

  // ---------------------------------------------------------------------------
  // Big-endian wire order (STM32 UART)
  // ---------------------------------------------------------------------------

  function EncodeHeaderBE(h: DmqHeader): (r: seq<u8>)
    ensures |r| == HEADER_SIZE
  {
    BE16(h.marker) + BE16(h.id) + BE16(h.seqNum) + BE16(h.length)
  }

  function DecodeHeaderBE(b: seq<u8>): DmqHeader
    requires |b| == HEADER_SIZE
  {
    DmqHeader(FromBE16(b[0], b[1]), FromBE16(b[2], b[3]), FromBE16(b[4], b[5]), FromBE16(b[6], b[7]))
  }

  lemma HeaderRoundTripBE(h: DmqHeader)
    ensures DecodeHeaderBE(EncodeHeaderBE(h)) == h
  {
    BE16RoundTrip(h.marker);
    BE16RoundTrip(h.id);
    BE16RoundTrip(h.seqNum);
    BE16RoundTrip(h.length);
  }

  /** The two wire orders disagree: a little-endian packet starts with the
      marker's low byte 0xAA, a big-endian one with its high byte 0x55. */
  lemma WireOrdersDisagreeOnMarker(h: DmqHeader)
    requires h.marker == MARKER
    ensures EncodeHeaderLE(h)[0] == 0xAA && EncodeHeaderBE(h)[0] == 0x55
  {
  }
}
