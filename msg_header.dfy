/** MsgHeader: the 6-byte header of the older remote-delegate transports
    (marker, id, seqNum). Setters store their argument as given; getters
    swap the bytes back when the host is big-endian. The host's byte order,
    which LE() probes at run time, is fixed when a header is made. */
module MsgHeaders {
  import opened Bytes

  /** MsgHeader::MARKER */
  const MSG_MARKER: u16 := 0x55AA

  class MsgHeader {
    var marker: u16
    var id: u16
    var seqNum: u16
    /** LE(): whether the host stores the low byte first. */
    const littleEndian: bool

    /** MsgHeader(): marker at its default, id and seqNum zero. */
    constructor (hostLE: bool)
      ensures littleEndian == hostLE
      ensures marker == MSG_MARKER && id == 0 && seqNum == 0
    {
      littleEndian := hostLE;
      marker, id, seqNum := MSG_MARKER, 0, 0;
    }

    /** MsgHeader(id, seqNum): the marker keeps its default. */
    constructor WithIds(hostLE: bool, id: u16, seqNum: u16)
      ensures littleEndian == hostLE
      ensures marker == MSG_MARKER && this.id == id && this.seqNum == seqNum
    {
      littleEndian := hostLE;
      marker := MSG_MARKER;
      this.id, this.seqNum := id, seqNum;
    }

    /** No swap on a little-endian host; the two bytes exchanged otherwise. */
    function SwapIfNeeded(value: u16): (r: u16)
      reads this
      ensures littleEndian ==> r == value
    {
      if littleEndian then value else Swap16(value)
    }

    function GetMarker(): (v: u16)
      reads this
      ensures littleEndian ==> v == marker
    {
      SwapIfNeeded(marker)
    }

    function GetId(): (v: u16)
      reads this
      ensures littleEndian ==> v == id
    {
      SwapIfNeeded(id)
    }

    function GetSeqNum(): (v: u16)
      reads this
      ensures littleEndian ==> v == seqNum
    {
      SwapIfNeeded(seqNum)
    }

    /** Setters store the value unchanged; swapping what the getter returns
        gives the stored value back on either host. */
    method SetId(v: u16)
      modifies this`id
      ensures id == v
      ensures SwapIfNeeded(GetId()) == v
    {
      id := v;
      SwapIfNeededInvolution(v);
    }

    method SetSeqNum(v: u16)
      modifies this`seqNum
      ensures seqNum == v
      ensures SwapIfNeeded(GetSeqNum()) == v
    {
      seqNum := v;
      SwapIfNeededInvolution(v);
    }

    method SetMarker(v: u16)
      modifies this`marker
      ensures marker == v
      ensures SwapIfNeeded(GetMarker()) == v
    {
      marker := v;
      SwapIfNeededInvolution(v);
    }

    /** On either host, applying SwapIfNeeded twice gives back the value. */
    lemma SwapIfNeededInvolution(v: u16)
      ensures SwapIfNeeded(SwapIfNeeded(v)) == v
    {
      if !littleEndian {
        Swap16Involution(v);
      }
    }

    /** On a big-endian host each getter exchanges the bytes of the stored
        value. */
    lemma BigEndianGetterSwaps()
      requires !littleEndian
      ensures Lo(GetMarker()) == Hi(marker) && Hi(GetMarker()) == Lo(marker)
      ensures Lo(GetId()) == Hi(id) && Hi(GetId()) == Lo(id)
      ensures Lo(GetSeqNum()) == Hi(seqNum) && Hi(GetSeqNum()) == Lo(seqNum)
    {
      Swap16Bytes(marker);
      Swap16Bytes(id);
      Swap16Bytes(seqNum);
    }
  }
}
