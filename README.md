# DelegateMQ core, modelled in Dafny

DelegateMQ is a C++ library for invoking functions ("delegates") synchronously, asynchronously on worker threads, or remotely over a transport. The repository also holds many sample projects. This project models the sequential, integer-only parts of its core:

- **Software timer registry** (`Timer.cpp`). Each timer is a small state machine: enabled, once, timeout and expiry time. All timers share one list with a lazily applied "stopped" flag. `ProcessTimers` purges the stopped timers and then checks every remaining timer against the current time, with a catch-up rule for periodic timers.
- **Wire framing and ACK bookkeeping.** This is the 8-byte `DmqHeader` frame, `[marker][id][seqNum][length]` followed by the payload:
  - the serial and Win32 TCP transports write it little-endian;
  - the STM32 UART transport writes it big-endian and resynchronises on the marker's high byte;
  - the Python client re-implements it.
  
  Non-ACK sends are registered with a transport monitor, a received ACK clears its sequence number, and every other received packet is acknowledged. The older 6-byte `MsgHeader` (`[marker][id][seqNum]`) is written by `Dispatcher` and parsed by the Win32 UDP and named-pipe transports.
- **Delegate containers**, pinned down by their unit tests:
  - unicast: zero or one target;
  - multicast: a list, with append, remove-one, clear, copy and move;
  - during a broadcast, a removal only nulls the entry, and the nulls are dropped after the outermost broadcast.
- **Application state machines**:
  - the STM32 server's polling circuit breaker and alarm cadence;
  - the `NetworkEngine` id-to-endpoint routing and receive filter;
  - the `DataMgr` local/remote merge;
  - the change-notifying `Property` of the binding sample.
- **Bare-metal runtime** for the ARM sample:
  - the chunked `_write`, the bump-pointer `_sbrk` and the fixed-result stubs;
  - the reset handler: FPU enable, the `.data` copy loop and the `.bss` zero loop.

Each stateful entity is a class whose methods change its fields, as the source does. Pure encodings and decisions are functions. The lemmas relate them: round trips, catch-up bounds, filters, and broadcast outcomes.

Byte sources and sinks (serial ports, sockets, UARTs, pipes) are the `Ports.Port` class:
- the bytes that will arrive are a sequence `rx`;
- what was written is `tx`;
- how much one driver call moves is bounded by `readChunk` and `writeChunk`;
- `writeFault` makes every write fail;
- a connection breaks once `capacity` bytes have been written to it, and every later write fails.

The clock is an integer parameter `now`. Callbacks and remote endpoints are tokens, and their invocations are logged in order. Fixed-width integers are the subset types `u8` and `u16`. Every host that copies a `uint16_t` into a byte stream is taken to be little-endian, as x86 and Cortex-M are. `MsgHeader` keeps the host order as a flag, so its big-endian path is modelled too.

Two observations that the lemmas make precise:

- `Dispatcher::Dispatch` writes the marker and the id only (4 bytes). The UDP and pipe receivers read a third field, the sequence number. So they take the first two argument bytes as the sequence number (`Dispatchers.DispatchedMessageParse`). The transport `Dispatcher` really hands its stream to, `msgpack/Transport.h`, is not part of this model, so this is stated as a property rather than claimed as a defect.
- `_write` hands each chunk to the semihosting SYS_WRITE0 call, which prints up to the first NUL. Text with a NUL anywhere in it is printed shorter than it was written (`Retarget.EmbeddedNulTruncates`); text without one is printed whole (`Retarget.NulFreeIsPrinted`).

## Model

| member | source | states |
|---|---|---|
| Bytes.LE16RoundTrip | src/delegate-mq/predef/transport/serial/SerialTransport.h:109-119 | a uint16_t written as its two little-endian bytes reads back as the same value |
| Bytes.FromLE16RoundTrip | src/delegate-mq/predef/transport/serial/SerialTransport.h:168-190 | every pair of bytes is the encoding of the value it decodes to |
| Bytes.BE16RoundTrip | src/delegate-mq/predef/transport/stm32-uart/Stm32UartTransport.h:78-92 | a value stored high byte first reads back unchanged |
| Bytes.Swap16Bytes | src/delegate-mq/predef/transport/stm32-uart/Stm32UartTransport.h:78 | `(v<<8)\|(v>>8)` exchanges the low and high byte |
| Bytes.Swap16Involution | src/delegate-mq/predef/dispatcher/MsgHeader.h:72-82 | swapping twice gives back the original value |
| Bytes.SwappedFromLEIsBE | src/delegate-mq/predef/transport/stm32-uart/Stm32UartTransport.h:139-145 | copying two bytes into a little-endian uint16_t and swapping decodes them big-endian |
| Bytes.SwappedLEIsBE | src/delegate-mq/predef/transport/stm32-uart/Stm32UartTransport.h:78-92 | a swapped value copied into memory lays the original out in network order |
| DmqFrame.AckHeader | src/delegate-mq/predef/transport/serial/SerialTransport.h:221-227 | an auto-ACK header has the marker, ACK id 0, the received seqNum and length 0 |
| DmqFrame.EncodeHeaderLE | src/delegate-mq/predef/transport/serial/SerialTransport.h:109-119 | a header occupies exactly HEADER_SIZE (8) bytes on the wire |
| DmqFrame.HeaderRoundTripLE | src/delegate-mq/predef/transport/serial/SerialTransport.h:109-119 | decoding an encoded little-endian header gives the header back |
| DmqFrame.FrameLE | src/delegate-mq/predef/transport/serial/SerialTransport.h:95-124 | a packet is the header with its length replaced by the payload length, followed by the payload |
| DmqFrame.ParseFrameLE | src/delegate-mq/predef/transport/serial/SerialTransport.h:158-210 | a successful receive yields exactly `length` payload bytes, and a failed one yields none |
| DmqFrame.FrameRoundTripLE | src/delegate-mq/predef/transport/serial/SerialTransport.h:95-210 | receiving what Send wrote returns the sender's id, seqNum, length and payload and leaves the following bytes unread |
| DmqFrame.FrameSplit | src/delegate-mq/predef/transport/serial/SerialTransport.h:95-120 | a packet followed by more bytes splits into the encoded header of the payload's length and the payload followed by those bytes |
| DmqFrame.EncodeHeaderBE | src/delegate-mq/predef/transport/stm32-uart/Stm32UartTransport.h:70-92 | a big-endian header is 8 bytes |
| DmqFrame.HeaderRoundTripBE | src/delegate-mq/predef/transport/stm32-uart/Stm32UartTransport.h:70-92 | decoding an encoded big-endian header gives the header back |
| DmqFrame.WireOrdersDisagreeOnMarker | src/delegate-mq/predef/transport/stm32-uart/Stm32UartTransport.h:115-136 | a little-endian packet starts with 0xAA and a big-endian one with 0x55, so the two families cannot read each other |
| SerialTransport.SerialTransport.constructor | src/delegate-mq/predef/transport/serial/SerialTransport.h:26-29 | a new transport sends and receives through itself and has no monitor |
| SerialTransport.SerialTransport.SetTransportMonitor | src/delegate-mq/predef/transport/serial/SerialTransport.h:234-239 | the monitor is replaced |
| SerialTransport.SerialTransport.SetSendTransport | src/delegate-mq/predef/transport/serial/SerialTransport.h:241-246 | the send transport is replaced |
| SerialTransport.SerialTransport.SetRecvTransport | src/delegate-mq/predef/transport/serial/SerialTransport.h:248-253 | the receive transport is replaced |
| SerialTransport.SerialTransport.Send | src/delegate-mq/predef/transport/serial/SerialTransport.h:81-144 | returns -1 and writes nothing without a port, on a bad stream, when receive-only, or when the payload exceeds 65535 bytes; otherwise the written bytes are a prefix of the frame, a non-ACK (seqNum, id) is registered before the write, and 0 is returned exactly when the whole frame went out |
| SerialTransport.SerialTransport.ReadExact | src/delegate-mq/predef/transport/serial/SerialTransport.h:257-270 | succeeds exactly when `size` bytes are available, and then dest holds them; a read that returns nothing fails |
| SerialTransport.SerialTransport.Receive | src/delegate-mq/predef/transport/serial/SerialTransport.h:146-232 | the result follows ParseFrameLE on the arriving bytes; an ACK removes its seqNum from the monitor; any other packet is answered with an ACK frame carrying its seqNum when a monitor and send transport exist |
| TcpTransport.TcpTransport.constructor | src/delegate-mq/predef/transport/win32-tcp/Win32TcpTransport.h:32-35 | a new transport sends and receives through itself |
| TcpTransport.TcpTransport.SetTransportMonitor | src/delegate-mq/predef/transport/win32-tcp/Win32TcpTransport.h:235-239 | the monitor is replaced |
| TcpTransport.TcpTransport.SetSendTransport | src/delegate-mq/predef/transport/win32-tcp/Win32TcpTransport.h:240-244 | the send transport is replaced |
| TcpTransport.TcpTransport.SetRecvTransport | src/delegate-mq/predef/transport/win32-tcp/Win32TcpTransport.h:245-249 | the receive transport is replaced |
| TcpTransport.TcpTransport.Send | src/delegate-mq/predef/transport/win32-tcp/Win32TcpTransport.h:124-163 | returns -1 without a socket or for a payload above 65535 bytes; otherwise the send loop puts out as much of the frame as the connection takes before its first error, returns 0 exactly when that is the whole frame, and registers a non-ACK packet with the monitor only then; a failed send leaves its partial frame on the wire and the monitor unchanged |
| TcpTransport.TcpTransport.ReadExact | src/delegate-mq/predef/transport/win32-tcp/Win32TcpTransport.h:252-261 | succeeds exactly when `size` bytes arrive, which then fill dest in order |
| TcpTransport.TcpTransport.Receive | src/delegate-mq/predef/transport/win32-tcp/Win32TcpTransport.h:165-232 | a server without a client accepts at most the one waiting connection, and -1 without one; otherwise the frame is parsed as on the serial line, an ACK clears its seqNum and any other packet is acknowledged, with as much of the ACK frame as the connection takes |
| TcpTransport.TcpTransport.ReadFrame | src/delegate-mq/predef/transport/win32-tcp/Win32TcpTransport.h:193-217 | reading a header and its payload from the socket gives the same verdict, header, payload and unread bytes as the serial-line frame parse |
| TcpTransport.TcpTransport.ReadHeader | src/delegate-mq/predef/transport/win32-tcp/Win32TcpTransport.h:194-207 | the header is read exactly when eight bytes arrive; it is their little-endian decoding and they leave the socket, while a short read consumes what arrived |
| TcpTransport.TcpTransport.SettleAck | src/delegate-mq/predef/transport/win32-tcp/Win32TcpTransport.h:219-229 | an ACK removes its seqNum from a set monitor; any other packet is acknowledged with a bare ACK header through the send transport when both a monitor and a send transport are set, with as much of the ACK frame as the connection takes |
| Stm32Uart.FindSync | src/delegate-mq/predef/transport/stm32-uart/Stm32UartTransport.h:115-133 | finds the first byte equal to the marker's high byte, and none is found only when there is none |
| Stm32Uart.ParseFrameBE | src/delegate-mq/predef/transport/stm32-uart/Stm32UartTransport.h:111-164 | a successful receive yields exactly `length` payload bytes, and a failed one yields none |
| Stm32Uart.WireHeader | src/delegate-mq/predef/transport/stm32-uart/Stm32UartTransport.h:70-92 | the transmitted header is 8 bytes |
| Stm32Uart.ParseAlignedFrame | src/delegate-mq/predef/transport/stm32-uart/Stm32UartTransport.h:115-164 | a packet starting with the sync byte is parsed from its first byte |
| Stm32Uart.FrameRoundTripBE | src/delegate-mq/predef/transport/stm32-uart/Stm32UartTransport.h:59-164 | receiving what Send transmitted returns the sender's id, seqNum, length and payload |
| Stm32Uart.ResyncSkipsNoise | src/delegate-mq/predef/transport/stm32-uart/Stm32UartTransport.h:115-133 | bytes without the sync byte in front of a packet are skipped without changing the result |
| Stm32Uart.FromNetHeader | src/delegate-mq/predef/transport/stm32-uart/Stm32UartTransport.h:139-145 | the swap-on-read decoding equals big-endian decoding |
| Stm32Uart.PackHeader | src/delegate-mq/predef/transport/stm32-uart/Stm32UartTransport.h:70-92 | the packet buffer holds each field swapped to network order at offsets 0, 2, 4 and 6 |
| Stm32Uart.Stm32UartTransport.constructor | src/delegate-mq/predef/transport/stm32-uart/Stm32UartTransport.h:38-50 | the transport keeps the given handle (or none) and sends and receives through itself |
| Stm32Uart.Stm32UartTransport.Create | src/delegate-mq/predef/transport/stm32-uart/Stm32UartTransport.h:52-55 | the handle is stored, and the result is 0 exactly when it is not null |
| Stm32Uart.Stm32UartTransport.SetTransportMonitor | src/delegate-mq/predef/transport/stm32-uart/Stm32UartTransport.h:185 | the monitor is replaced |
| Stm32Uart.Stm32UartTransport.SetSendTransport | src/delegate-mq/predef/transport/stm32-uart/Stm32UartTransport.h:186 | the send transport is replaced |
| Stm32Uart.Stm32UartTransport.SetRecvTransport | src/delegate-mq/predef/transport/stm32-uart/Stm32UartTransport.h:187 | the receive transport is replaced |
| Stm32Uart.Stm32UartTransport.Send | src/delegate-mq/predef/transport/stm32-uart/Stm32UartTransport.h:59-109 | -1 for a bad stream, a foreign sender or an oversized payload, with or without a UART handle; a non-ACK is registered before transmission; the payload goes out only when non-empty and the header went out whole; either failure gives -1 |
| Stm32Uart.Stm32UartTransport.SyncAndReadHeader | src/delegate-mq/predef/transport/stm32-uart/Stm32UartTransport.h:115-136 | bytes are discarded up to the first sync byte, and the other 7 header bytes are then read after it |
| Stm32Uart.Stm32UartTransport.Receive | src/delegate-mq/predef/transport/stm32-uart/Stm32UartTransport.h:111-181 | -1 for a foreign receiver, with or without a UART handle; otherwise the result follows ParseFrameBE: a wrong marker or a length above 512 gives -1, a payload replaces the stream contents, an ACK clears its seqNum and any other packet is acknowledged |
| Stm32Uart.Stm32UartTransport.SettleAck | src/delegate-mq/predef/transport/stm32-uart/Stm32UartTransport.h:166-178 | an ACK removes its seqNum from a set monitor; any other packet is answered with a swapped bare ACK header when both a monitor and a send transport are set, written through this UART or forwarded to the other transport |
| MsgHeaders.MsgHeader.constructor | src/delegate-mq/predef/dispatcher/MsgHeader.h:18 | a default header has marker 0x55AA, id 0 and seqNum 0 |
| MsgHeaders.MsgHeader.WithIds | src/delegate-mq/predef/dispatcher/MsgHeader.h:19-21 | id and seqNum are set, and the marker keeps its default |
| MsgHeaders.MsgHeader.SwapIfNeeded | src/delegate-mq/predef/dispatcher/MsgHeader.h:64-82 | on a little-endian host the value is returned unchanged |
| MsgHeaders.MsgHeader.GetMarker | src/delegate-mq/predef/dispatcher/MsgHeader.h:23-26 | on a little-endian host the stored marker is returned |
| MsgHeaders.MsgHeader.GetId | src/delegate-mq/predef/dispatcher/MsgHeader.h:29-32 | on a little-endian host the stored id is returned |
| MsgHeaders.MsgHeader.GetSeqNum | src/delegate-mq/predef/dispatcher/MsgHeader.h:35-38 | on a little-endian host the stored seqNum is returned |
| MsgHeaders.MsgHeader.SetId | src/delegate-mq/predef/dispatcher/MsgHeader.h:41-44 | the argument is stored unchanged, and the getter gives it back up to the host swap |
| MsgHeaders.MsgHeader.SetSeqNum | src/delegate-mq/predef/dispatcher/MsgHeader.h:47-50 | the argument is stored unchanged, and the getter gives it back up to the host swap |
| MsgHeaders.MsgHeader.SetMarker | src/delegate-mq/predef/dispatcher/MsgHeader.h:53-56 | the argument is stored unchanged, and the getter gives it back up to the host swap |
| MsgHeaders.MsgHeader.SwapIfNeededInvolution | src/delegate-mq/predef/dispatcher/MsgHeader.h:72-82 | on either host, SwapIfNeeded applied twice is the identity |
| MsgHeaders.MsgHeader.BigEndianGetterSwaps | src/delegate-mq/predef/dispatcher/MsgHeader.h:72-82 | on a big-endian host the marker, id and seqNum getters each exchange the bytes of the stored value |
| MsgStreams.Read16 | src/delegate-mq/predef/transport/win32-udp/Transport.h:124-144 | a 2-byte read advances by two when the bytes are there; a short read sets the fail bit; a failed stream yields 0 and stays unchanged |
| MsgStreams.ParseMsgHeader | src/delegate-mq/predef/transport/win32-udp/Transport.h:120-144 | id and seqNum are taken exactly when the marker is 0x55AA |
| MsgStreams.EncodeMsgHeader | src/delegate-mq/predef/dispatcher/MsgHeader.h:15-61 | the older header is 6 bytes |
| MsgStreams.MsgHeaderRoundTrip | src/delegate-mq/predef/transport/win32-udp/Transport.h:124-144 | a message starting with an encoded header parses back to its id and seqNum, with the stream positioned at the arguments |
| MsgStreams.BadMarkerStopsParse | src/delegate-mq/predef/transport/win32-udp/Transport.h:124-131 | a wrong marker stops the parse after two bytes, with no id or seqNum taken |
| Dispatchers.Dispatcher.constructor | src/delegate-mq/predef/dispatcher/Dispatcher.h:16 | a new dispatcher has no transport |
| Dispatchers.Dispatcher.SetTransport | src/delegate-mq/predef/dispatcher/Dispatcher.h:24-27 | the transport is replaced |
| Dispatchers.Dispatcher.Dispatch | src/delegate-mq/predef/dispatcher/Dispatcher.h:30-46 | the result is always 0; with a transport, exactly one stream is handed over: marker 0x55AA, then the id, then the argument bytes, with failbit set exactly when there are no argument bytes, so that only a dispatch with arguments passes the UDP and pipe Send guard; without a transport, nothing is handed over |
| Dispatchers.Dispatcher.Dispose | src/delegate-mq/predef/dispatcher/Dispatcher.h:17-22 | a set transport is closed, then the pointer is cleared |
| Dispatchers.DispatchedMessageParse | src/delegate-mq/predef/dispatcher/Dispatcher.h:32-42 | a dispatched message parsed by the UDP/pipe receivers yields its id, with the first two argument bytes taken as the seqNum |
| UdpTransport.UdpTransport.constructor | src/delegate-mq/predef/transport/win32-udp/Transport.h:146-157 | nothing has been sent yet |
| UdpTransport.UdpTransport.Send | src/delegate-mq/predef/transport/win32-udp/Transport.h:84-106 | 0 exactly when the stream is good and non-empty and the allocation and sendto succeed, in which case the whole stream goes out as one datagram; otherwise -1 and nothing is sent |
| UdpTransport.UdpTransport.Receive | src/delegate-mq/predef/transport/win32-udp/Transport.h:108-145 | a failed receive gives an empty stream and leaves the header alone; otherwise the header's marker and, when it matches, its id and seqNum are set as ParseMsgHeader says, and the stream is positioned after them |
| PipeTransport.PipeTransport.constructor | src/delegate-mq/predef/transport/win32-pipe/Transport.h:140-146 | a new transport has no pipe |
| PipeTransport.PipeTransport.Create | src/delegate-mq/predef/transport/win32-pipe/Transport.h:30-68 | -1 exactly when the handle is invalid |
| PipeTransport.PipeTransport.Close | src/delegate-mq/predef/transport/win32-pipe/Transport.h:70-74 | the pipe handle is cleared |
| PipeTransport.PipeTransport.Send | src/delegate-mq/predef/transport/win32-pipe/Transport.h:76-96 | -1 for a bad, failed or empty stream or without a pipe; otherwise one write, with 0 exactly when every byte was written |
| PipeTransport.PipeTransport.Receive | src/delegate-mq/predef/transport/win32-pipe/Transport.h:98-139 | no client, or a read that gives nothing, yields an empty stream; otherwise the bytes read are parsed as ParseMsgHeader says |
| PythonClient.Classify | example/sample-projects/system-architecture-python/client/network_client.py:116-132 | messages under 8 bytes are malformed; a wrong marker is ignored; id 0 is an ACK; anything else is data whose payload is every byte after the header, the length field unused |
| PythonClient.AckPacket | example/sample-projects/system-architecture-python/client/network_client.py:93-98 | an ACK is the 8-byte header with id 0, the received seq and length 0 |
| PythonClient.NetworkClient.constructor | example/sample-projects/system-architecture-python/client/network_client.py:16-29 | no socket, seq 0, no callbacks |
| PythonClient.NetworkClient.Start | example/sample-projects/system-architecture-python/client/network_client.py:31-47 | the send socket exists afterwards |
| PythonClient.NetworkClient.RegisterCallback | example/sample-projects/system-architecture-python/client/network_client.py:59-61 | the callback for the id is replaced, and other ids are untouched |
| PythonClient.NetworkClient.Send | example/sample-projects/system-architecture-python/client/network_client.py:63-91 | without a socket nothing happens; otherwise seq becomes (seq + 1) % 65535 before packing; an id or length outside u16 raises; the packet sent is the little-endian header followed by the payload |
| PythonClient.NetworkClient.SendAck | example/sample-projects/system-architecture-python/client/network_client.py:93-100 | the ACK packet is sent, and a send error is swallowed |
| PythonClient.NetworkClient.DispatchMessage | example/sample-projects/system-architecture-python/client/network_client.py:142-179 | the registered callback of ALARM, COMMAND or DATA is called once with the payload; an unregistered id, or ACTUATOR, calls nothing |
| PythonClient.NetworkClient.HandleMessage | example/sample-projects/system-architecture-python/client/network_client.py:111-136 | a data packet is dispatched and then acknowledged with its seq; malformed, wrong-marker and ACK packets cause nothing |
| PythonClient.NetworkClient.RecvLoop | example/sample-projects/system-architecture-python/client/network_client.py:102-140 | over a run of messages, the packets sent are AllAcks and the callbacks called are AllInvocations, in order |
| PythonClient.SentPacketIsData | example/sample-projects/system-architecture-python/client/network_client.py:77-86 | a receiver classifies a packet that send built as data with the same id, seq and payload |
| PythonClient.AckPacketIsAck | example/sample-projects/system-architecture-python/client/network_client.py:93-98 | the client's own ACK is classified as an ACK, so it is never answered |
| PythonClient.IgnoredMessagesAreSilent | example/sample-projects/system-architecture-python/client/network_client.py:116-129 | a run of short, wrong-marker or ACK messages sends nothing and calls nothing |
| PythonClient.AcksMatchDataMessages | example/sample-projects/system-architecture-python/client/network_client.py:127-136 | the ACKs of a run are exactly one per data message, with its seq, in order |
| Timers.DifferenceProperties | src/delegate-mq/predef/util/Timer.cpp:137-140 | Difference(t, t) is 0, differences add up along a chain, and swapping the arguments negates the result |
| Timers.CheckTimer | src/delegate-mq/predef/util/Timer.cpp:98-132 | fires exactly when enabled and now - expireTime >= timeout; otherwise nothing changes; a one-shot disables itself and raises the stopped flag; a periodic timer stays enabled |
| Timers.PeriodicCatchUp | src/delegate-mq/predef/util/Timer.cpp:113-128 | after a periodic timer fires, 0 <= now - expireTime <= timeout |
| Timers.PeriodicKeepsPhase | src/delegate-mq/predef/util/Timer.cpp:113-121 | a periodic timer at most two timeouts behind advances its expiry by exactly one timeout |
| Timers.OneShotFiresOnce | src/delegate-mq/predef/util/Timer.cpp:107-111 | a one-shot timer that fired does not fire again, whatever the time |
| Timers.CheckKeepsWellFormed | src/delegate-mq/predef/util/Timer.cpp:55-56 | checking keeps an enabled timer's timeout positive |
| Timers.Timer.constructor | src/delegate-mq/predef/util/Timer.h:63-66 | a new timer is disabled and periodic, with zero timeout and zero expiry |
| Timers.Timer.Enabled | src/delegate-mq/predef/util/Timer.h:32 | returns exactly the enabled flag |
| Timers.StatesOf | src/delegate-mq/predef/util/Timer.h:56-66 | the fields of each listed timer, in list order |
| Timers.KeepEnabled | src/delegate-mq/predef/util/Timer.cpp:14-17 | remove_if(TimerDisabled) keeps exactly the enabled timers |
| Timers.KeepEnabledDistinct | src/delegate-mq/predef/util/Timer.cpp:150-154 | the purge keeps the list free of duplicates |
| Timers.KeepEnabledAllEnabled | src/delegate-mq/predef/util/Timer.cpp:150-154 | purging a list of enabled timers removes nothing |
| Timers.AnyStops | src/delegate-mq/predef/util/Timer.cpp:107-111 | the flag is raised exactly when some checked timer is a firing one-shot |
| Timers.TimerRegistry.constructor | src/delegate-mq/predef/util/Timer.h:57-67 | the shared timer list starts empty and the shared stopped flag starts clear, as Timer.cpp initialises it |
| Timers.TimerRegistry.Start | src/delegate-mq/predef/util/Timer.cpp:53-77 | a non-positive timeout is refused and changes nothing; otherwise the timer is enabled with expireTime = now and is in the list exactly once |
| Timers.TimerRegistry.StartPeriodic | src/delegate-mq/predef/util/Timer.h:25 | once defaults to false: the started timer is periodic |
| Timers.TimerRegistry.Stop | src/delegate-mq/predef/util/Timer.cpp:82-93 | only the enabled flag changes, the global flag is raised, and the list is untouched |
| Timers.TimerRegistry.Destroy | src/delegate-mq/predef/util/Timer.cpp:31-48 | the timer leaves the list, and the others stay in order |
| Timers.TimerRegistry.CheckExpired | src/delegate-mq/predef/util/Timer.cpp:98-132 | the timer's new fields, the Expired call and the flag follow CheckTimer |
| Timers.TimerRegistry.Purge | src/delegate-mq/predef/util/Timer.cpp:150-154 | with the flag raised, exactly the disabled timers go, in order, and the flag is cleared; otherwise the list is untouched |
| Timers.TimerRegistry.CheckAll | src/delegate-mq/predef/util/Timer.cpp:157-170 | every listed timer is checked once, in order; the fired ones are logged in list order; the flag ends raised exactly when a one-shot fired |
| Timers.TimerRegistry.ProcessTimers | src/delegate-mq/predef/util/Timer.cpp:145-171 | the purge, then the walk: surviving timers have their CheckTimer state, purged timers are untouched, and the fired log and flag are as CheckAll says |
| Containers.UnicastDelegate.constructor | test/unit-tests/Containers_UT.cpp:27 | a new container is empty |
| Containers.UnicastDelegate.Size | test/unit-tests/Containers_UT.cpp:27-29 | Size is at most 1, and 0 exactly when empty |
| Containers.UnicastDelegate.Assign | test/unit-tests/Containers_UT.cpp:49-53 | assignment replaces the held delegate, giving Size 1 |
| Containers.UnicastDelegate.Clear | test/unit-tests/Containers_UT.cpp:46-55 | Clear and assigning nullptr leave Size 0 |
| Containers.UnicastDelegate.CopyFrom | test/unit-tests/Containers_UT.cpp:34-44 | after a copy both hold the delegate |
| Containers.UnicastDelegate.MoveFrom | test/unit-tests/Containers_UT.cpp:30-32 | after a move the destination holds the delegate and the source is empty |
| Containers.UnicastDelegate.Invoke | test/unit-tests/Containers_UT.cpp:63-69 | invoking calls the held delegate once, and an empty container calls nothing |
| Containers.Live | test/unit-tests/Containers_UT.cpp:369-372 | the live delegates of a list never outnumber its entries, and a delegate is live exactly when some entry holds it |
| Containers.Compact | test/unit-tests/Containers_UT.cpp:433-439 | the clean-up after a broadcast leaves no null entry |
| Containers.LiveAppend | test/unit-tests/Containers_UT.cpp:145-146 | the live delegates of a concatenation are those of each part, in order |
| Containers.CompactKeepsLive | test/unit-tests/Containers_UT.cpp:433-439 | the clean-up keeps exactly the live delegates, in order |
| Containers.IndexOf | test/unit-tests/Containers_UT.cpp:159-160 | the first position of an entry, or the length when it is absent |
| Containers.DeleteFirst | test/unit-tests/Containers_UT.cpp:206-207 | removal outside a broadcast takes out exactly one matching entry (as a multiset), and an absent delegate changes nothing |
| Containers.NullFirst | test/unit-tests/Containers_UT.cpp:369-372 | removal during a broadcast keeps the length and changes only a matching entry |
| Containers.Walk | test/unit-tests/Containers_UT.cpp:339-378 | a broadcast walk keeps the list length |
| Containers.Effect | test/unit-tests/Containers_UT.cpp:339-405 | a target's action keeps the list length |
| Containers.MulticastDelegate.constructor | test/unit-tests/Containers_UT.cpp:121 | a new container is empty |
| Containers.MulticastDelegate.Size | test/unit-tests/Containers_UT.cpp:151-158 | Size counts the live delegates, duplicates separately |
| Containers.MulticastDelegate.Add | test/unit-tests/Containers_UT.cpp:143-158 | += and PushBack append, and the live delegates gain the new one at the end |
| Containers.MulticastDelegate.Remove | test/unit-tests/Containers_UT.cpp:159-160 | outside a broadcast the first match is erased; inside one it is nulled; an absent delegate changes nothing |
| Containers.MulticastDelegate.Clear | test/unit-tests/Containers_UT.cpp:139-148 | Clear leaves the container empty |
| Containers.MulticastDelegate.CopyFrom | test/unit-tests/Containers_UT.cpp:128-141 | after a copy both hold the same list |
| Containers.MulticastDelegate.MoveFrom | test/unit-tests/Containers_UT.cpp:124-126 | after a move the destination holds the list and the source is empty |
| Containers.MulticastDelegate.Broadcast | test/unit-tests/Containers_UT.cpp:170-226 | the calls are those of the walk; after the outermost broadcast the list is the walk's list with nulls dropped |
| Containers.MulticastDelegate.Act | test/unit-tests/Containers_UT.cpp:339-405 | a target removing, removing another or broadcasting again acts as Effect says |
| Containers.LiveOfFull | test/unit-tests/Containers_UT.cpp:151-158 | a list without nulls has as many live delegates as entries |
| Containers.SelfRemoval | test/unit-tests/Containers_UT.cpp:339-378 | a delegate that removes itself is called once and is gone after the clean-up |
| Containers.RemoveNext | test/unit-tests/Containers_UT.cpp:355-378 | a delegate removed by an earlier one in the same broadcast is skipped and is gone afterwards |
| Containers.NestedBroadcast | test/unit-tests/Containers_UT.cpp:381-405 | nested broadcasts run to completion, once per level, and leave the list intact |
| Containers.CallEach | test/unit-tests/Containers_UT.cpp:170-226 | one call per delegate: the k-th call goes to the k-th delegate with the broadcast argument |
| Containers.QuietBroadcast | test/unit-tests/Containers_UT.cpp:170-226 | when no target changes the container, a broadcast calls every live delegate once with the argument, in order, and no removed one |
| Containers.EmptyBroadcast | test/unit-tests/Containers_UT.cpp:231-233 | broadcasting an empty container calls nothing |
| ServerApplication.ErrorsSaturate | example/sample-projects/stm32-freertos/server/Src/network_tests.cpp:180-183 | n failures in a row leave the counter at min(n, 6) |
| ServerApplication.TripsExactlyOnce | example/sample-projects/stm32-freertos/server/Src/network_tests.cpp:185-189 | in a run of failures the counter equals 5 only after the fifth |
| ServerApplication.AlarmCadence | example/sample-projects/stm32-freertos/server/Src/network_tests.cpp:131-134 | of the first n polls, ceil(n/10) raise an alarm |
| ServerApplication.ServerApp.constructor | example/sample-projects/stm32-freertos/server/Src/network_tests.cpp:81-97 | not polling, counters at zero, the poll timer fresh |
| ServerApplication.ServerApp.StartPolling | example/sample-projects/stm32-freertos/server/Src/network_tests.cpp:105-116 | the counter is always reset; only when not connected is the timer connected and started with pollTime, and a zero pollTime throws |
| ServerApplication.ServerApp.StopPolling | example/sample-projects/stm32-freertos/server/Src/network_tests.cpp:119-127 | only a connected timer is stopped and disconnected, so stopping twice equals stopping once |
| ServerApplication.ServerApp.CommandMsgRecv | example/sample-projects/stm32-freertos/server/Src/network_tests.cpp:54-65 | START starts polling, STOP stops it, anything else changes nothing |
| ServerApplication.ServerApp.ActuatorMsgRecv | example/sample-projects/stm32-freertos/server/Src/network_tests.cpp:68-78 | id 1 or 2 sets that actuator's position; other ids change none |
| ServerApplication.ServerApp.PollData | example/sample-projects/stm32-freertos/server/Src/network_tests.cpp:129-156 | an alarm exactly when the call count before this call is a multiple of 10 |
| ServerApplication.ServerApp.SendStatusHandler | example/sample-projects/stm32-freertos/server/Src/network_tests.cpp:167-196 | success resets the counter; a failure steps it up to at most 6, and polling stops exactly on the failure that makes it 5 |
| NetworkEngines.ForwardedOf | example/sample-projects/system-architecture-no-deps/common/NetworkEngine.cpp:95-99 | only error-free, non-empty receives are forwarded, in order |
| NetworkEngines.AllGoodForwarded | example/sample-projects/system-architecture/common/NetworkEngine.cpp:90-94 | a run of good receives is forwarded whole, in order |
| NetworkEngines.NoneForwarded | example/sample-projects/system-architecture/common/NetworkEngine.cpp:90-94 | a run of failed or empty receives forwards nothing |
| NetworkEngines.NetworkEngine.constructor | example/sample-projects/system-architecture/common/NetworkEngine.cpp:9-14 | no endpoints registered, nothing delivered |
| NetworkEngines.NetworkEngine.InitializePair | example/sample-projects/system-architecture/common/NetworkEngine.cpp:23-45 | the result is the sum of the two Create error codes, and the socket types follow isServer |
| NetworkEngines.NetworkEngine.InitializePubSub | example/sample-projects/system-architecture-no-deps/common/NetworkEngine.cpp:23-50 | the result is the sum of the PUB and SUB Create error codes |
| NetworkEngines.NetworkEngine.RegisterEndpoint | example/sample-projects/system-architecture/common/NetworkEngine.cpp:77-80 | the id maps to the endpoint, overwriting any earlier registration |
| NetworkEngines.NetworkEngine.Incoming | example/sample-projects/system-architecture/common/NetworkEngine.cpp:98-106 | an ACK is never delivered; any other message goes to the registered non-null endpoint only; the map is unchanged |
| NetworkEngines.NetworkEngine.RecvThread | example/sample-projects/system-architecture/common/NetworkEngine.cpp:82-96 | until exit is requested, exactly the forwardable receives are queued, in order |
| DataManager.DataMgr.constructor | example/sample-projects/stm32-freertos/client/DataMgr.h:38-46 | both stored messages start empty |
| DataManager.DataMgr.GetCombinedDataMsg | example/sample-projects/stm32-freertos/client/DataMgr.h:55-67 | actuators are the local then the remote actuators, sensors likewise, and neither stored message changes |
| DataManager.DataMgr.SetDataMsg | example/sample-projects/stm32-freertos/client/DataMgr.h:69-80 | only the local message is replaced, and subscribers (if any) get the combined message |
| DataManager.DataMgr.RemoteDataMsgUpdate | example/sample-projects/stm32-freertos/client/DataMgr.h:82-93 | only the remote message is replaced, and subscribers (if any) get the combined message |
| BindingProperty.NotifyAll | example/sample-code/BindingProperty.cpp:27-34 | every bound listener is called once with the new value, in bind order |
| BindingProperty.Property.constructor | example/sample-code/BindingProperty.cpp:24 | a property holds its initial value with no listeners |
| BindingProperty.Property.Set | example/sample-code/BindingProperty.cpp:27-34 | an equal value changes nothing and calls nobody; a different one is stored and every listener is called with it |
| BindingProperty.Property.Get | example/sample-code/BindingProperty.cpp:37-39 | returns the stored value |
| BindingProperty.Property.Bind | example/sample-code/BindingProperty.cpp:42-48 | a listener is appended and earlier ones stay bound |
| BindingProperty.PropertyBinding.constructor | example/sample-code/BindingProperty.cpp:61-82 | all three properties start at 0, and property1 carries the two bindings |
| BindingProperty.PropertyBinding.SetProperty1 | example/sample-code/BindingProperty.cpp:84-86 | after the call property2 is 2v and property3 is 3v; listeners are called only when v changed, and the invariant property2 = 2 property1 and property3 = 3 property1 is kept |
| BindingProperty.PropertyBinding.GetProperty1 | example/sample-code/BindingProperty.cpp:88-90 | returns property1 |
| BindingProperty.PropertyBinding.GetProperty2 | example/sample-code/BindingProperty.cpp:92-94 | returns twice property1 |
| BindingProperty.PropertyBinding.GetProperty3 | example/sample-code/BindingProperty.cpp:96-100 | returns three times property1 |
| Retarget.ChunksOf | example/sample-projects/bare-metal-arm/retarget.c:19-27 | every chunk holds 1 to 64 bytes and ends in NUL |
| Retarget.Printed | example/sample-projects/bare-metal-arm/retarget.c:10-14 | SYS_WRITE0 prints a NUL-free prefix of its string |
| Retarget.ChunksJoin | example/sample-projects/bare-metal-arm/retarget.c:20-30 | the chunk bodies, joined in order, are exactly the bytes written |
| Retarget.ChunkCount | example/sample-projects/bare-metal-arm/retarget.c:21-30 | there are ceil(len/64) chunks |
| Retarget.NulFreeIsPrinted | example/sample-projects/bare-metal-arm/retarget.c:10-30 | text without NUL is printed in full |
| Retarget.EmbeddedNulTruncates | example/sample-projects/bare-metal-arm/retarget.c:10-30 | for every text with a NUL at any position, fewer characters are printed than were written, so the output differs from the text |
| Retarget.PrintedStopsAtNul | example/sample-projects/bare-metal-arm/retarget.c:10-14 | SYS_WRITE0 prints no more of a string than precedes any NUL in it |
| Retarget.PrintedAllShort | example/sample-projects/bare-metal-arm/retarget.c:10-30 | no text is printed longer than it was written |
| Retarget.EmbeddedNulExample | example/sample-projects/bare-metal-arm/retarget.c:10-30 | "a\0b" is printed as "a" |
| Retarget.Console.constructor | example/sample-projects/bare-metal-arm/retarget.c:19 | nothing written yet, with a 65-byte buffer |
| Retarget.Console.Write | example/sample-projects/bare-metal-arm/retarget.c:17-32 | returns len; the strings handed to SYS_WRITE0 are ChunksOf(ptr[0..len)), and nothing for len <= 0 |
| Retarget.Console.FillChunk | example/sample-projects/bare-metal-arm/retarget.c:22-27 | the buffer holds the next min(64, remaining) bytes followed by NUL |
| Retarget.Heap.constructor | example/sample-projects/bare-metal-arm/retarget.c:40 | the break starts null |
| Retarget.Heap.Sbrk | example/sample-projects/bare-metal-arm/retarget.c:39-46 | returns the old break, or &_end while the break is null, and moves the break incr past it |
| Retarget.AdjacentBlocks | example/sample-projects/bare-metal-arm/retarget.c:39-46 | two successive requests get adjacent blocks, unless the first leaves the break null |
| Retarget.StubResult | example/sample-projects/bare-metal-arm/retarget.c:61-68 | -1 exactly for _open, _close and _kill; 0 exactly for _read and _lseek; 1 exactly for _isatty and _getpid |
| Retarget.Fstat | example/sample-projects/bare-metal-arm/retarget.c:63 | success, with a character-device mode |
| Startup.EnableFpu | example/sample-projects/bare-metal-arm/startup.c:36-37 | bits 20-23 end set and every other bit of CPACR is preserved |
| Startup.FpuAccessBits | example/sample-projects/bare-metal-arm/startup.c:37 | the mask is (3<<20)\|(3<<22) |
| Startup.EnableFpuIdempotent | example/sample-projects/bare-metal-arm/startup.c:36-37 | enabling twice equals enabling once |
| Startup.Mcu.constructor | example/sample-projects/bare-metal-arm/startup.c:3-8 | memory of the given size, CPACR as given, no events yet |
| Startup.Mcu.CopyData | example/sample-projects/bare-metal-arm/startup.c:43-47 | only [_data, _edata) is written, and it ends equal to the words from _etext when the copy does not clobber its own source |
| Startup.Mcu.ZeroBss | example/sample-projects/bare-metal-arm/startup.c:50-53 | every word of [_bss, _ebss) becomes 0 and no other word changes |
| Startup.Mcu.ResetHandler | example/sample-projects/bare-metal-arm/startup.c:33-64 | FPU enabled, .data initialised, .bss zeroed, all other memory untouched, and the events FPU, copy, zero, constructors, main and the final spin happen in that order |

## Left out

- The thread re-dispatch guards: every transport and engine method first re-posts itself to its own thread. The model runs each call on that thread.
- Port, socket, pipe and UART set-up and teardown: the serial `Create`/`Close`, the TCP `Create`/`Close`, and the UDP `Create`/`Close`. A transport is constructed on an already opened port, and only the STM32 `Create` (a null check) and the pipe `Create`/`Close` are modelled.
- Timeouts: the timeouts passed to blocking reads and the 10 ms `select` poll of the TCP server. A read that would time out returns what is there, and the poll's outcome is a parameter. The STM32 sync loop waits with `HAL_MAX_DELAY`, that is without limit; here it ends with -1 when no further bytes arrive.
- SerialTransport.SerialTransport.Receive: after a bad marker the source calls `sp_flush` to discard pending input. The model leaves the bytes after the header on the port.
- `DmqHeader.h` is not part of this model. Its marker 0x55AA, header size 8 and ACK id 0 are taken from the transports, `MsgHeader.h` and `config.py`. A default header is taken to hold the marker and zeros.
- `ITransportMonitor`/`TransportMonitor` is not part of this model. It is represented by a map from sequence number to remote id with `Add` and `Remove`; its timeout processing is left out.
- `msgpack/Transport.h`, the transport `Dispatcher` sends through, is not part of this model. It is represented by a log of sent streams and a closed flag.
- Byte order: every host that copies a `uint16_t` into a stream is little-endian. Only `MsgHeader` models the big-endian host.
- Timers.TimerRegistry.CheckExpired: the source samples `GetTime()` separately for the expiry test and the catch-up. The model uses one sample `now` for both.
- Timers: the `Expired` callback is recorded as an event in the fired log; what the callback itself does is not modelled. The null-pointer skip in `ProcessTimers` cannot arise, because list elements are non-null references.
- Timers.TimerRegistry.Start: the thrown `std::invalid_argument` is the `false` result.
- The Python client's msgpack decoding of the payload, its socket threads and `stop()` are left out. `_dispatch_message` is modelled with the payload assumed to decode; a decode error would only be printed.
- PipeTransport.PipeTransport.Send: a failed allocation of the write buffer is not modelled.
- ServerApplication.ServerApp.PollData: the static `errCnt` is unbounded here. The source's `int` would overflow after 2^31 polls. The alarm is counted rather than passed to `AlarmMgr`, and the `DataMsg` of actuator states and sensor readings that each poll collects and hands to `NetworkMgr::SendDataMsg` is not modelled.
- The sensor and actuator float values and the LED and log output of the server application are left out.
- The `*Safe` container variants (`UnicastDelegateSafe`, `MulticastDelegateSafe`) share the model of the plain containers. Their locking is not modelled.
- NetworkEngines: the engine's send side, `Start`/`Stop`, the monitor timeout and the error and status handlers are left out. The ZeroMQ and UDP variants share one class with one `Initialize` per variant.
- BindingProperty.PropertyBinding.SetProperty1: 2v and 3v are unbounded here. The source's `int` overflows outside roughly ±2^30. The asynchronous hop of the third binding is shown as a direct call, which is what waiting for completion amounts to.
- Retarget: the wide-character shims (`swprintf`, `putwc`, `getwc` and their relatives), `__malloc_lock`/`__malloc_unlock` and `_exit`'s endless loop have no logic to model. Addresses in `_sbrk` are unbounded integers, without 32-bit wrap-around.
- Startup: `debug_print`'s message output and the calls of `__libc_init_array` and `main` are events, not modelled code. The vector table is left out.
