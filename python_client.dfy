/** The Python NetworkClient: it frames outgoing messages with the same
    8-byte little-endian DmqHeader as the C++ transports, numbers them with a
    wrapping sequence counter, and in its receive loop filters incoming
    packets, hands data packets to the callback registered for their id and
    acknowledges them. The send socket is the log `sent`; whether a send on
    it raises is the constant `sendFault`. A callback is a token naming the
    registered function, and the log `invoked` records each call. */
module PythonClient {
  import opened Bytes
  import opened DmqFrame

  /** `_seq_num` is taken modulo 65535. */
  const SEQ_MODULUS: nat := 65535

  /** RemoteId values of config.py whose callbacks _dispatch_message calls. */
  const ALARM_ID: u16 := 1
  const DATA_ID: u16 := 2
  const COMMAND_ID: u16 := 3
  const ACTUATOR_ID: u16 := 4

  type Callback = nat

  /** What `send` did: nothing (no socket), raised struct.error from pack,
      had its socket send fail, or sent the packet. */
  datatype SendOutcome = NotConnected | PackError | SendFailed | Sent

  /** How the receive loop classifies one received message. */
  datatype Packet =
    | Malformed
    | WrongMarker(marker: u16)
    | Ack(seqNum: u16)
    | Data(id: u16, seqNum: u16, payload: seq<u8>)

  /** The filter of `_recv_loop`: short messages and wrong markers are
      skipped, ACK-id packets are recognised, and any other packet carries
      every byte after the header as its payload; the length field is never
      consulted. */
  function Classify(data: seq<u8>): (p: Packet)
    ensures p.Malformed? <==> |data| < HEADER_SIZE
    ensures p.WrongMarker? ==> p.marker != MARKER
    ensures p.Data? ==> p.id != ACK_REMOTE_ID && p.payload == data[HEADER_SIZE..]
    ensures (p.Ack? || p.Data?) ==> |data| >= HEADER_SIZE && FromLE16(data[0], data[1]) == MARKER
  {
    if |data| < HEADER_SIZE then Malformed
    else
      var h := DecodeHeaderLE(data[..HEADER_SIZE]);
      if h.marker != MARKER then WrongMarker(h.marker)
      else if h.id == ACK_REMOTE_ID then Ack(h.seqNum)
      else Data(h.id, h.seqNum, data[HEADER_SIZE..])
  }

  /** The ACK packet `_send_ack` builds: a bare header. */
  function AckPacket(seqNum: u16): (r: seq<u8>)
    ensures |r| == HEADER_SIZE
  {
    EncodeHeaderLE(AckHeader(seqNum))
  }

  /** The packets one received message makes the loop send: an ACK for a
      data packet, nothing otherwise. */
  function AcksFor(p: Packet): seq<seq<u8>>
  {
    if p.Data? then [AckPacket(p.seqNum)] else []
  }

  /** The callbacks one received message makes the loop call:
      `_dispatch_message` calls the registered callback of the ALARM,
      COMMAND and DATA ids, only prints for ACTUATOR, and does nothing for
      an id without a callback. */
  function InvocationsFor(callbacks: map<int, Callback>, p: Packet): seq<(Callback, u16, seq<u8>)>
  {
    if p.Data? && p.id as int in callbacks && p.id in {ALARM_ID, COMMAND_ID, DATA_ID}
    then [(callbacks[p.id as int], p.id, p.payload)]
    else []
  }

  /** ACKs sent for a sequence of received messages, in order. */
  function AllAcks(msgs: seq<seq<u8>>): seq<seq<u8>>
  {
    if msgs == [] then []
    else AllAcks(msgs[..|msgs| - 1]) + AcksFor(Classify(msgs[|msgs| - 1]))
  }

  /** Callback calls made for a sequence of received messages, in order. */
  function AllInvocations(callbacks: map<int, Callback>, msgs: seq<seq<u8>>): seq<(Callback, u16, seq<u8>)>
  {
    if msgs == [] then []
    else AllInvocations(callbacks, msgs[..|msgs| - 1]) + InvocationsFor(callbacks, Classify(msgs[|msgs| - 1]))
  }

  class NetworkClient {
    /** Whether `start` has created the send socket. */
    var connected: bool
    var seqNum: int
    var callbacks: map<int, Callback>
    /** Packets the send socket accepted, in order. */
    var sent: seq<seq<u8>>
    /** Whether every send on the socket raises zmq.ZMQError. */
    const sendFault: bool
    /** Callback calls, in order: (callback, id, payload). */
    var invoked: seq<(Callback, u16, seq<u8>)>

    ghost predicate Valid()
      reads this
    {
      0 <= seqNum < SEQ_MODULUS
    }

    constructor (sendFault: bool)
      ensures Valid() && !connected && seqNum == 0 && callbacks == map[]
      ensures sent == [] && invoked == [] && this.sendFault == sendFault
    {
      connected, seqNum, callbacks := false, 0, map[];
      sent, invoked := [], [];
      this.sendFault := sendFault;
    }

    /** start: the sockets are connected (the receive thread is not modelled). */
    method Start()
      modifies this`connected
      ensures connected
    {
      connected := true;
    }

    /** register_callback replaces any earlier callback for the id. */
    method RegisterCallback(remoteId: int, f: Callback)
      modifies this`callbacks
      ensures callbacks == old(callbacks)[remoteId := f]
    {
      callbacks := callbacks[remoteId := f];
    }

    /** send: without a socket nothing happens. Otherwise the counter
        advances first; packing fails for an id or a payload length that is
        not a u16; else the header and payload go out as one message. */
    method Send(remoteId: int, payload: seq<u8>) returns (outcome: SendOutcome)
      requires Valid()
      modifies this`seqNum, this`sent
      ensures Valid()
      ensures !connected ==> outcome == NotConnected && seqNum == old(seqNum) && sent == old(sent)
      ensures connected ==> seqNum == (old(seqNum) + 1) % SEQ_MODULUS
      ensures connected && !(0 <= remoteId <= U16_MAX && |payload| <= U16_MAX) ==>
                outcome == PackError && sent == old(sent)
      ensures connected && 0 <= remoteId <= U16_MAX && |payload| <= U16_MAX ==>
                && outcome == (if sendFault then SendFailed else Sent)
                && sent == old(sent) + (if sendFault then []
                                        else [FrameLE(DmqHeader(MARKER, remoteId as u16, seqNum as u16, 0), payload)])
    {
      if !connected {
        return NotConnected;
      }
      seqNum := (seqNum + 1) % SEQ_MODULUS;
      var sq := seqNum;
      var length := |payload|;
      if !(0 <= remoteId <= U16_MAX) || length > U16_MAX {
        return PackError;
      }
      var header := EncodeHeaderLE(DmqHeader(MARKER, remoteId as u16, sq as u16, length as u16));
      var fullPacket := header + payload;
      assert fullPacket == FrameLE(DmqHeader(MARKER, remoteId as u16, sq as u16, 0), payload);
      if sendFault {
        return SendFailed;
      }
      sent := sent + [fullPacket];
      return Sent;
    }

    /** _send_ack: a send error is swallowed. */
    method SendAck(seqNo: u16)
      modifies this`sent
      ensures sent == old(sent) + (if sendFault then [] else [AckPacket(seqNo)])
    {
      var header := EncodeHeaderLE(DmqHeader(MARKER, ACK_REMOTE_ID, seqNo, 0));
      if !sendFault {
        sent := sent + [header];
      }
    }

    /** _dispatch_message, with the payload assumed to decode. */
    method DispatchMessage(remoteId: u16, payload: seq<u8>)
      modifies this`invoked
      ensures invoked == old(invoked) + InvocationsFor(callbacks, Data(remoteId, 0, payload))
    {
      if remoteId as int !in callbacks {
        return;
      }
      var callback := callbacks[remoteId as int];
      if remoteId == ALARM_ID || remoteId == COMMAND_ID || remoteId == DATA_ID {
        invoked := invoked + [(callback, remoteId, payload)];
      }
    }

    /** One pass of the `_recv_loop` body for a received message. */
    method HandleMessage(data: seq<u8>)
      modifies this`sent, this`invoked
      ensures sent == old(sent) + (if sendFault then [] else AcksFor(Classify(data)))
      ensures invoked == old(invoked) + InvocationsFor(callbacks, Classify(data))
    {
      if |data| < HEADER_SIZE {
        return;
      }
      var marker := FromLE16(data[0], data[1]);
      var remoteId := FromLE16(data[2], data[3]);
      var seqNo := FromLE16(data[4], data[5]);
      if marker != MARKER {
        return;
      }
      if remoteId == ACK_REMOTE_ID {
        return;
      }
      var payload := data[HEADER_SIZE..];
      DispatchMessage(remoteId, payload);
      SendAck(seqNo);
    }

    /** `_recv_loop` over the messages that arrive while it runs. */
    method RecvLoop(msgs: seq<seq<u8>>)
      modifies this`sent, this`invoked
      ensures sent == old(sent) + (if sendFault then [] else AllAcks(msgs))
      ensures invoked == old(invoked) + AllInvocations(callbacks, msgs)
    {
      var i := 0;
      while i < |msgs|
        invariant 0 <= i <= |msgs|
        invariant sent == old(sent) + (if sendFault then [] else AllAcks(msgs[..i]))
        invariant invoked == old(invoked) + AllInvocations(callbacks, msgs[..i])
      {
        HandleMessage(msgs[i]);
        assert msgs[..i + 1][..i] == msgs[..i];
        i := i + 1;
      }
      assert msgs[..|msgs|] == msgs;
    }
  }

  /** A packet `send` builds is taken by a receiver as data with the same
      id, sequence number and payload. */
  lemma {:induction false} SentPacketIsData(remoteId: u16, seqNo: u16, payload: seq<u8>)
    requires remoteId != ACK_REMOTE_ID && |payload| <= U16_MAX
    ensures Classify(FrameLE(DmqHeader(MARKER, remoteId, seqNo, 0), payload)) == Data(remoteId, seqNo, payload)
  {
    var h := DmqHeader(MARKER, remoteId, seqNo, 0);
    HeaderRoundTripLE(h.(length := |payload|));
  }

  /** The client's own ACK packet is recognised as an ACK, so it is neither
      dispatched nor acknowledged in turn. */
  lemma {:induction false} AckPacketIsAck(seqNo: u16)
    ensures Classify(AckPacket(seqNo)) == Ack(seqNo)
  {
    var b := AckPacket(seqNo);
    assert b[..HEADER_SIZE] == b;
    HeaderRoundTripLE(AckHeader(seqNo));
    assert DecodeHeaderLE(b[..HEADER_SIZE]) == AckHeader(seqNo);
  }

  /** Only data packets produce ACKs or callback calls: a run of short,
      wrong-marker and ACK messages leaves the client silent. */
  lemma {:induction false} IgnoredMessagesAreSilent(callbacks: map<int, Callback>, msgs: seq<seq<u8>>)
    requires forall i :: 0 <= i < |msgs| ==> !Classify(msgs[i]).Data?
    ensures AllAcks(msgs) == [] && AllInvocations(callbacks, msgs) == []
    decreases |msgs|
  {
    if msgs != [] {
      var init := msgs[..|msgs| - 1];
      assert forall i :: 0 <= i < |init| ==> init[i] == msgs[i];
      IgnoredMessagesAreSilent(callbacks, init);
    }
  }

  /** Every data packet in a run is acknowledged: the run's ACKs are exactly
      one per data message, carrying that message's sequence number. */
  lemma {:induction false} AcksMatchDataMessages(msgs: seq<seq<u8>>)
    ensures |AllAcks(msgs)| == |DataSeqNums(msgs)|
    ensures forall k :: 0 <= k < |AllAcks(msgs)| ==> AllAcks(msgs)[k] == AckPacket(DataSeqNums(msgs)[k])
    decreases |msgs|
  {
    if msgs != [] {
      AcksMatchDataMessages(msgs[..|msgs| - 1]);
    }
  }

  /** The sequence numbers of the data messages of a run, in order. */
  function DataSeqNums(msgs: seq<seq<u8>>): seq<u16>
  {
    if msgs == [] then []
    else
      var p := Classify(msgs[|msgs| - 1]);
      DataSeqNums(msgs[..|msgs| - 1]) + (if p.Data? then [p.seqNum] else [])
  }
}
