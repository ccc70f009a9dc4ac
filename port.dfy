/** The byte source and sink underneath a transport: a serial port, a TCP
    socket or a UART. The bytes that will arrive are known in advance (`rx`);
    how many bytes one call moves is bounded by the driver (`readChunk`,
    `writeChunk`); a write may fail outright (`writeFault`), and a connection
    may break once the far end has taken `capacity` bytes. */
module Ports {
  import opened Bytes

  /** A driver moves at least one byte per call when bytes are there. */
  type Chunk = n: nat | n > 0 witness 1

  /** The count a write result stands for: an error wrote nothing. */
  function Written(k: int): nat { if k < 0 then 0 else k }

  class Port {
    var rx: seq<u8>
    var tx: seq<u8>
    const readChunk: Chunk
    const writeChunk: Chunk
    var writeFault: bool
    /** How many bytes in all `tx` may hold before every further write
        fails; negative for a connection that never breaks. */
    const capacity: int

    constructor (incoming: seq<u8>, readChunk: Chunk, writeChunk: Chunk, writeFault: bool, capacity: int)
      ensures rx == incoming && tx == [] && this.readChunk == readChunk
      ensures this.writeChunk == writeChunk && this.writeFault == writeFault && this.capacity == capacity
    {
      rx, tx := incoming, [];
      this.readChunk, this.writeChunk, this.writeFault := readChunk, writeChunk, writeFault;
      this.capacity := capacity;
    }

    /** How many bytes a write call of n bytes accepts once m bytes more
        than `tx` holds have gone out, or -1 on an error: at least one byte
        of a non-empty write unless the connection is broken. */
    function AcceptsAfter(m: nat, n: nat): (k: int)
      reads this
      ensures k == -1 <==> writeFault || 0 <= capacity <= |tx| + m
      ensures k >= 0 ==> k <= n && (n > 0 ==> k > 0)
      ensures k >= 0 && capacity >= 0 ==> |tx| + m + k <= capacity
    {
      if writeFault || 0 <= capacity <= |tx| + m then -1
      else if capacity < 0 then Min(n, writeChunk)
      else Min(Min(n, writeChunk), capacity - |tx| - m)
    }

    /** How many bytes one write call of n bytes accepts, or -1 on an error. */
    function Accepts(n: nat): int
      reads this
    {
      AcceptsAfter(0, n)
    }

    /** How many of n bytes a run of write calls gets out before the first
        error. */
    function Deliverable(n: nat): (d: nat)
      reads this
      ensures d <= n
      ensures n > 0 ==> (d < n <==> writeFault || 0 <= capacity < |tx| + n)
    {
      if writeFault then 0
      else if capacity < 0 then n
      else if capacity <= |tx| then 0
      else Min(n, capacity - |tx|)
    }

    /** One blocking read of at most n bytes into dest[at..]; 0 means the
        read timed out with nothing available. */
    method ReadInto(dest: array<u8>, at: nat, n: nat) returns (got: nat)
      requires at + n <= dest.Length
      modifies this`rx, dest
      ensures got == Min(Min(n, readChunk), |old(rx)|)
      ensures rx == old(rx)[got..]
      ensures dest[..at] == old(dest[..at]) && dest[at + got..] == old(dest[at + got..])
      ensures dest[at..at + got] == old(rx)[..got]
    {
      got := Min(Min(n, readChunk), |rx|);
      var k := 0;
      while k < got
        invariant 0 <= k <= got
        invariant rx == old(rx)
        invariant dest[..at] == old(dest[..at]) && dest[at + got..] == old(dest[at + got..])
        invariant dest[at..at + k] == rx[..k]
      {
        dest[at + k] := rx[k];
        k := k + 1;
      }
      rx := rx[got..];
    }

    /** A blocking read of exactly n bytes into dest[at..] that gives up on a
        timeout, as HAL_UART_Receive does: either all n bytes arrive, or
        whatever there was is consumed and the call fails. */
    method TakeInto(dest: array<u8>, at: nat, n: nat) returns (ok: bool)
      requires at + n <= dest.Length
      modifies this`rx, dest
      ensures ok <==> n <= |old(rx)|
      ensures ok ==> dest[at..at + n] == old(rx)[..n] && rx == old(rx)[n..]
      ensures !ok ==> rx == []
      ensures dest[..at] == old(dest[..at]) && dest[at + n..] == old(dest[at + n..])
    {
      var m := Min(n, |rx|);
      var k := 0;
      while k < m
        invariant 0 <= k <= m
        invariant rx == old(rx)
        invariant dest[..at] == old(dest[..at]) && dest[at + n..] == old(dest[at + n..])
        invariant dest[at..at + k] == rx[..k]
      {
        dest[at + k] := rx[k];
        k := k + 1;
      }
      ok := n <= |rx|;
      rx := rx[m..];
    }

    /** A blocking read of one byte that fails when nothing arrives. */
    method TakeByte() returns (ok: bool, b: u8)
      modifies this`rx
      ensures ok <==> |old(rx)| > 0
      ensures ok ==> b == old(rx)[0] && rx == old(rx)[1..]
      ensures !ok ==> rx == []
    {
      if |rx| == 0 {
        return false, 0;
      }
      ok, b := true, rx[0];
      rx := rx[1..];
    }

    /** One blocking write: the bytes the port accepts are appended to tx. */
    method Write(data: seq<u8>) returns (k: int)
      modifies this`tx
      ensures k == old(Accepts(|data|))
      ensures tx == if k < 0 then old(tx) else old(tx) + data[..k]
    {
      k := Accepts(|data|);
      if k >= 0 {
        tx := tx + data[..k];
      }
    }
  }
}
