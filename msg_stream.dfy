/** The input stream the UDP and pipe transports hand back: the received
    bytes, the read position and the fail bit. `read(&v, 2)` copies two
    bytes into v in the (little-endian) Win32 host's memory order; a read
    that runs out of bytes sets the fail bit, and once it is set every later
    read extracts nothing. Every variable read into starts at 0. */
module MsgStreams {
  import opened Bytes
  import opened Options
  import opened MsgHeaders

  datatype InStream = InStream(data: seq<u8>, pos: nat, failed: bool)
  {
    ghost predicate Valid() { pos <= |data| }
  }

  /** An output stream as Send sees it: what was written and the bad and
      fail bits. */
  datatype OutStream = OutStream(data: seq<u8>, bad: bool, failed: bool)

  /** The guard both Send methods pass: a healthy stream with something in it. */
  predicate Sendable(os: OutStream)
  {
    !os.bad && !os.failed && |os.data| > 0
  }

  /** A freshly written stream positioned at its start. */
  function Fresh(data: seq<u8>): InStream
  {
    InStream(data, 0, false)
  }

  /** `uint16_t v = 0; is.read(&v, 2)`: the value read and the stream after. */
  function Read16(s: InStream): (r: (u16, InStream))
    requires s.Valid()
    ensures r.1.Valid() && r.1.data == s.data && s.pos <= r.1.pos <= s.pos + 2
    ensures !s.failed && s.pos + 2 <= |s.data| ==> !r.1.failed && r.1.pos == s.pos + 2
    ensures s.failed ==> r == (0, s)
    ensures !s.failed && s.pos + 2 > |s.data| ==> r.1.failed && r.1.pos == |s.data|
  {
    if s.failed then (0, s)
    else if s.pos + 2 <= |s.data| then (FromLE16(s.data[s.pos], s.data[s.pos + 1]), s.(pos := s.pos + 2))
    else if s.pos + 1 == |s.data| then (FromLE16(s.data[s.pos], 0), s.(pos := |s.data|, failed := true))
    else (0, s.(failed := true))
  }

  /** What Receive makes of one received message: the marker it stored in
      the header, the id and seqNum it stored when the marker matched, and
      the stream it returns. */
  datatype MsgParse = MsgParse(marker: u16, ids: Option<(u16, u16)>, stream: InStream)

  /** The header parse shared by the UDP and pipe transports. */
  function ParseMsgHeader(data: seq<u8>): (p: MsgParse)
    ensures p.stream.data == data && p.stream.Valid()
    ensures p.ids.Some? <==> p.marker == MSG_MARKER
  {
    var (marker, s1) := Read16(Fresh(data));
    if marker != MSG_MARKER then MsgParse(marker, None, s1)
    else
      var (id, s2) := Read16(s1);
      var (seqNum, s3) := Read16(s2);
      MsgParse(marker, Some((id, seqNum)), s3)
  }

  /** The six bytes of a MsgHeader in wire order. */
  function EncodeMsgHeader(marker: u16, id: u16, seqNum: u16): (r: seq<u8>)
    ensures |r| == 6
  {
    LE16(marker) + LE16(id) + LE16(seqNum)
  }

  /** A message that starts with an encoded header parses back to that
      header's id and seqNum, and the returned stream is positioned at the
      argument data that follows. */
  lemma {:induction false} MsgHeaderRoundTrip(id: u16, seqNum: u16, args: seq<u8>)
    ensures ParseMsgHeader(EncodeMsgHeader(MSG_MARKER, id, seqNum) + args)
            == MsgParse(MSG_MARKER, Some((id, seqNum)), InStream(EncodeMsgHeader(MSG_MARKER, id, seqNum) + args, 6, false))
  {
    var data := EncodeMsgHeader(MSG_MARKER, id, seqNum) + args;
    LE16RoundTrip(MSG_MARKER);
    LE16RoundTrip(id);
    LE16RoundTrip(seqNum);
    assert data[0] == LE16(MSG_MARKER)[0] && data[1] == LE16(MSG_MARKER)[1];
    assert data[2] == LE16(id)[0] && data[3] == LE16(id)[1];
    assert data[4] == LE16(seqNum)[0] && data[5] == LE16(seqNum)[1];
  }

  /** A message whose first two bytes are not the marker is left positioned
      after them, with no id or seqNum taken from it. */
  lemma BadMarkerStopsParse(data: seq<u8>)
    requires |data| >= 2 && FromLE16(data[0], data[1]) != MSG_MARKER
    ensures ParseMsgHeader(data) == MsgParse(FromLE16(data[0], data[1]), None, InStream(data, 2, false))
  {
  }
}
