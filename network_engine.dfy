/** NetworkEngine of the system-architecture samples: it creates a send and
    a receive transport, routes each incoming message to the endpoint
    registered for its remote id, and runs a receive loop that forwards
    good packets to its own thread. The two sample variants (ZeroMQ pair
    sockets, and UDP publish/subscribe in the no-dependency build) share
    this logic and differ only in the transports Initialize creates. An
    endpoint is a token naming an IRemoteInvoker, None standing for a null
    pointer; `invoked` logs the Invoke calls and `queued` the messages the
    receive loop hands to Incoming. */
module NetworkEngines {
  import opened Bytes
  import opened Options
  import opened DmqFrame

  type Endpoint = nat

  /** The transport types Initialize creates. */
  datatype TransportKind = PairServer | PairClient | Pub | Sub

  /** One return of the receive transport: its error code, the header and
      the argument bytes it filled in. */
  datatype Received = Received(error: int, header: DmqHeader, data: seq<u8>)

  /** The receive loop's filter: no error and a non-empty payload. */
  predicate Forwardable(r: Received)
  {
    r.error == 0 && |r.data| > 0
  }

  /** The messages of a run of receives that the loop forwards, in order. */
  function ForwardedOf(rs: seq<Received>): (r: seq<(DmqHeader, seq<u8>)>)
    ensures |r| <= |rs|
    ensures forall k :: 0 <= k < |r| ==> |r[k].1| > 0
  {
    if rs == [] then []
    else
      var last := rs[|rs| - 1];
      ForwardedOf(rs[..|rs| - 1]) + (if Forwardable(last) then [(last.header, last.data)] else [])
  }

  /** Nothing is lost: a run of good receives is forwarded whole, in order. */
  lemma {:induction false} AllGoodForwarded(rs: seq<Received>)
    requires forall k :: 0 <= k < |rs| ==> Forwardable(rs[k])
    ensures |ForwardedOf(rs)| == |rs|
    ensures forall k :: 0 <= k < |rs| ==> ForwardedOf(rs)[k] == (rs[k].header, rs[k].data)
  {
    if rs != [] {
      AllGoodForwarded(rs[..|rs| - 1]);
    }
  }

  /** Nothing bad gets through: a run of failed or empty receives forwards
      nothing. */
  lemma {:induction false} NoneForwarded(rs: seq<Received>)
    requires forall k :: 0 <= k < |rs| ==> !Forwardable(rs[k])
    ensures ForwardedOf(rs) == []
  {
    if rs != [] {
      NoneForwarded(rs[..|rs| - 1]);
    }
  }

  class NetworkEngine {
    var receiveIdMap: map<u16, Option<Endpoint>>
    var invoked: seq<(Endpoint, seq<u8>)>
    var queued: seq<(DmqHeader, seq<u8>)>
    var recvThreadExit: bool
    var sendKind: Option<TransportKind>
    var recvKind: Option<TransportKind>

    constructor ()
      ensures receiveIdMap == map[] && invoked == [] && queued == [] && !recvThreadExit
      ensures sendKind == None && recvKind == None
    {
      receiveIdMap, invoked, queued, recvThreadExit := map[], [], [], false;
      sendKind, recvKind := None, None;
    }

    /** Initialize (ZeroMQ variant): both transports are pair sockets of the
        role `isServer` picks; the result is the sum of their Create codes. */
    method InitializePair(isServer: bool, sendCreateErr: int, recvCreateErr: int) returns (err: int)
      modifies this`sendKind, this`recvKind
      ensures err == sendCreateErr + recvCreateErr
      ensures sendKind == recvKind == Some(if isServer then PairServer else PairClient)
    {
      err := 0;
      var kind := if isServer then PairServer else PairClient;
      err := err + sendCreateErr;
      sendKind := Some(kind);
      err := err + recvCreateErr;
      recvKind := Some(kind);
    }

    /** Initialize (UDP variant): a publishing send transport and a
        subscribing receive transport; the result sums their Create codes. */
    method InitializePubSub(sendCreateErr: int, recvCreateErr: int) returns (err: int)
      modifies this`sendKind, this`recvKind
      ensures err == sendCreateErr + recvCreateErr
      ensures sendKind == Some(Pub) && recvKind == Some(Sub)
    {
      err := 0;
      err := err + sendCreateErr;
      sendKind := Some(Pub);
      err := err + recvCreateErr;
      recvKind := Some(Sub);
    }

    /** RegisterEndpoint: a later registration for an id replaces an earlier
        one. */
    method RegisterEndpoint(id: u16, endpoint: Option<Endpoint>)
      modifies this`receiveIdMap
      ensures receiveIdMap == old(receiveIdMap)[id := endpoint]
    {
      receiveIdMap := receiveIdMap[id := endpoint];
    }

    /** Incoming: an ACK is never delivered; any other message goes to the
        endpoint registered for its id when there is a non-null one. The
        lookup adds no entry for an unknown id. */
    method Incoming(header: DmqHeader, data: seq<u8>)
      modifies this`invoked
      ensures (header.id == ACK_REMOTE_ID || header.id !in receiveIdMap || receiveIdMap[header.id].None?)
              ==> invoked == old(invoked)
      ensures header.id != ACK_REMOTE_ID && header.id in receiveIdMap && receiveIdMap[header.id].Some? ==>
                invoked == old(invoked) + [(receiveIdMap[header.id].value, data)]
    {
      if header.id != ACK_REMOTE_ID {
        if header.id in receiveIdMap && receiveIdMap[header.id].Some? {
          invoked := invoked + [(receiveIdMap[header.id].value, data)];
        }
      }
    }

    /** RecvThread: loop until the exit flag is raised, forwarding each
        receive that returned no error and some data. `rs` are the results
        of successive Receive calls; Stop raises the flag while the call
        numbered `stopDuring` is blocked, so that result is dropped and the
        loop ends. */
    method RecvThread(rs: seq<Received>, stopDuring: nat)
      modifies this`recvThreadExit, this`queued
      ensures var n := if old(recvThreadExit) then 0 else Min(stopDuring, |rs|);
              queued == old(queued) + ForwardedOf(rs[..n])
      ensures recvThreadExit == (old(recvThreadExit) || stopDuring < |rs|)
    {
      var i := 0;
      while !recvThreadExit && i < |rs|
        invariant 0 <= i <= |rs|
        invariant !old(recvThreadExit) ==> i <= stopDuring + 1
        invariant recvThreadExit == (old(recvThreadExit) || (i > 0 && stopDuring < i))
        invariant old(recvThreadExit) ==> i == 0
        invariant queued == old(queued) + ForwardedOf(rs[..Min(i, stopDuring)])
        decreases |rs| - i
      {
        var r := rs[i];
        if i == stopDuring {
          recvThreadExit := true;
        }
        if r.error == 0 && |r.data| > 0 && !recvThreadExit {
          queued := queued + [(r.header, r.data)];
        }
        assert rs[..i + 1][..i] == rs[..i];
        i := i + 1;
      }
      if old(recvThreadExit) {
        assert rs[..0] == [];
      }
    }
  }
}
