/** The reliability monitor a transport reports to: every non-ACK packet sent
    is registered under its sequence number, and an ACK carrying that sequence
    number removes it again. */
module Monitor {
  import opened Bytes

  class TransportMonitor {
    /** seqNum -> remote id of the packets still waiting for an ACK. */
    var pending: map<u16, u16>

    constructor ()
      ensures pending == map[]
    {
      pending := map[];
    }

    method Add(seqNum: u16, id: u16)
      modifies this
      ensures pending == old(pending)[seqNum := id]
    {
      pending := pending[seqNum := id];
    }

    method Remove(seqNum: u16)
      modifies this
      ensures pending == old(pending) - {seqNum}
    {
      pending := pending - {seqNum};
    }
  }
}
