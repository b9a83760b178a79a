# NetComms in Dafny

NetComms is a small C# messaging library that runs over TCP or UDP. A
connection sends framed messages of three kinds:

- notifications, with tag 0;
- transactions (requests), each with a fresh tag from the connection's
  tag pool;
- responses, which echo the tag of the transaction they answer.

A server accepts connections, re-publishes their events and broadcasts
notifications to all of them. Over UDP, a keep-alive counter of missed
probes detects a silent peer.

This project models that protocol and its bookkeeping, sequentially, and
proves properties of the model. Sockets, threads and the stopwatch are
replaced by plain inputs:

- a stream is the sequence of bytes the peer sends before it closes;
- a datagram is a sequence of bytes;
- the clock is an integer supplied to each turn of a receive loop;
- every send is appended to a log on the socket object.

Modules, in dependency order:

- `Wire` (wire.dfy): 32-bit little-endian integers, the frame
  `[length][tag][payload]`, the stream decoder and the datagram check.
  The datagram check comes twice: as written and corrected (see
  Findings).
- `Tags` (tags.dfy): the per-connection tag pool. It has a FIFO queue of
  free tags, a map from pending tags to response handlers and a counter
  for new tags. The module also holds the three-way dispatch of an
  inbound frame and the pool invariant.
- `Demux` (demux.dfy): the stream receive loop as a function of the whole
  input stream.
- `KeepAlive` (keepalive.dfy): the missed-probe counter and its exact
  drop tick.
- `Sockets` (sockets.dfy): the operating system's stream, datagram and
  listening sockets. Faults the network can cause are fields a scenario
  sets.
- `Tcp` (tcp.dfy): `SocketExtensions.Read`, `TcpConnection` and
  `TcpTransaction`. The client and server roles (`TcpConnectionClient`,
  `TcpConnectionServer`) are one class with a `role` field.
- `Udp` (udp.dfy): `UdpConnection` and `UdpTransaction`. The client
  receive loop comes both as a specification function (`RunClient`) and
  as a method proved against it. Its roles (`UdpConnectionClient`,
  `UdpConnectionServer`) are one class with a `role` field.
- `Broadcast` (broadcast.dfy): the servers' broadcast, which swallows
  SocketException.
- `TcpServing` (tcpserver.dfy): `TcpServer`.
- `UdpTable` (udptable.dfy): the UDP server's table of connections, as a
  value, with the invariants its loop keeps.
- `UdpServing` (udpserver.dfy): `UdpServer`. Its methods are proved
  against `UdpTable` through a ghost mirror of each entry's connection
  state.

An exception is modelled as an `Outcome` value returned by the method
(`Fail(SocketFault)`, `Fail(AlreadyStarted)`, ...). An event is appended
to an `events` list on the object that raises it. Running a response
handler is recorded as a `Response(handler, message)` event.

Where the system's design description and the code differ, the model
follows the code:

- `TcpServer.Start` and `UdpServer.Start` have no clean-up on failure.
  When Bind raises, the new socket stays assigned and undisposed. Only
  the two client Start methods release the socket.
- The UDP server never removes an entry from its table. A dropped
  connection stays in the table, is ticked again on every probe tick
  and drops again each time, while the server, no longer subscribed,
  hears nothing more from it.
- A probe tick compares the missed-probe count from *before* its
  increment with `probes`. The drop therefore comes on tick
  `probes + 2` after the last datagram, and that tick sends no ping.
- Neither server removes a dropped connection from its set or table.
- Both broadcasts catch only SocketException
  (NetComms.Tcp/TcpServer.cs:119-129, NetComms.Udp/UdpServer.cs:144-154).
  A disposed TCP member has a null socket
  (NetComms.Tcp/TcpConnection.cs:99-100), so sending to it throws
  NullReferenceException. A UDP broadcast after the server's socket was
  disposed throws ObjectDisposedException. Either exception ends the
  broadcast at that member and reaches the caller (`Broadcast.Reach`,
  `Broadcast.Raised`); the later members receive nothing.
- A datagram larger than the socket's limit (65507 bytes of payload over
  IPv4, 65527 over IPv6) makes SendTo raise SocketException. Frames built
  from large payloads are therefore never sent over UDP, and a broadcast
  swallows the exception for every member.

## Model

| member | source | states |
|---|---|---|
| Wire.Le32 | NetComms.Tcp/TcpConnection.cs:109 | BitConverter.GetBytes of an int is four bytes; Le32RoundTrip and FromLe32RoundTrip make it the exact inverse of ToInt32 |
| Wire.FromLe32 | NetComms.Tcp/TcpConnection.cs:208 | BitConverter.ToInt32 reads a negative value exactly when the top bit of the last byte is set; Le32RoundTrip and FromLe32RoundTrip make it the exact inverse of GetBytes |
| Wire.Le32RoundTrip | NetComms.Tcp/TcpConnection.cs:208 | reading back a written 32-bit word gives the original int, negative values included |
| Wire.FromLe32RoundTrip | NetComms.Tcp/TcpConnection.cs:217 | any four bytes are the encoding of the int they decode to |
| Wire.Le32Injective | NetComms.Tcp/TcpConnection.cs:142-145 | distinct ints, and hence distinct tags and lengths, are written as distinct bytes |
| Wire.EncodeFrame | NetComms.Tcp/TcpConnection.cs:103-123 | every frame sent is 8 + n bytes for an n-byte payload |
| Wire.EncodeFrameLayout | NetComms.Tcp/TcpConnection.cs:139-151 | in a frame, bytes 0-3 decode to the payload length, bytes 4-7 to the tag, and the payload follows from byte 8 |
| Wire.ReadFrame | NetComms.Tcp/TcpConnection.cs:203-222 | an accepted frame has a payload of at most 32768 bytes, and header, payload and the rest account for the whole input |
| Wire.ReadEncodedFrame | NetComms.Tcp/TcpConnection.cs:203-222 | a stream decoder reading an encoded frame with a payload of at most 32768 bytes returns its tag and payload and leaves the following bytes untouched |
| Wire.ReadOversizeFrame | NetComms.Tcp/TcpConnection.cs:208-210 | a frame longer than 32768 bytes, which every Send method builds without complaint, is rejected by the receiver as a bad length |
| Wire.ReadFrameSound | NetComms.Tcp/TcpConnection.cs:203-222 | whatever the stream decoder accepts is exactly an encoded frame followed by the rest of the stream |
| Wire.ParsePacket | NetComms.Udp/UdpConnection.cs:199-211 | corrected datagram check: a datagram is a message exactly when it has at least 8 bytes and its length word equals its size minus 8; a negative length never gets through |
| Wire.ParsePacketAsWritten | NetComms.Udp/UdpConnection.cs:202-210 | the check as the source writes it: a datagram passes exactly when its length word equals its size minus 8; a message then has a payload of exactly that length and at least an 8-byte datagram; a negative length can only come from a datagram shorter than 8 bytes |
| Wire.AsWrittenNegativeLengthExactly | NetComms.Udp/UdpConnection.cs:202-211 | the check as written lets a negative length through exactly for 4-7-byte datagrams whose first word is their size minus 8; on every other datagram it agrees with the corrected check |
| Wire.AsWrittenAcceptsNegativeLength | NetComms.Udp/UdpConnection.cs:202-210 | the datagram FC FF FF FF passes the check as written with length -4, and the corrected check discards it |
| Wire.ParseEncodedPacket | NetComms.Udp/UdpConnection.cs:202-211 | a frame that fits the 32768-byte receive buffer, sent as a datagram, is parsed back into its tag and payload |
| Wire.ParsePacketSound | NetComms.Udp/UdpConnection.cs:202-211 | whatever the datagram check accepts is exactly an encoded frame |
| Wire.PingIsDiscarded | NetComms.Udp/UdpConnection.cs:98-102 | the zero-byte ping is never taken for a message, by either check |
| Tags.Seed | NetComms.Tcp/TcpConnection.cs:49-57 | the constructor queues exactly the tags base..base+9 in FIFO order, has nothing pending and leaves the counter at base+10 |
| Tags.SeedValid | NetComms.Udp/UdpConnection.cs:60-63 | the seeded pool satisfies the pool invariant: issued tags lie in base..counter-1, each is either queued or pending and never both, and queued tags are distinct |
| Tags.SeedRangesDisjoint | NetComms.Tcp/TcpConnectionServer.cs:8 | the server role's seeded tags never overlap the client role's 0x10000000..0x10000009 |
| Tags.Allocate | NetComms.Tcp/TcpConnection.cs:128-136 | the tag handed out is a queued one or the counter, and the handler is recorded under it with every other pending entry kept; AllocateValid states the rest |
| Tags.AllocateValid | NetComms.Tcp/TcpConnection.cs:128-136 | allocation takes the oldest queued tag, or the counter when the queue is empty (then advances it); the tag is nonzero and not already pending; the handler is recorded under it; the pool stays valid |
| Tags.EmptyQueueAllPending | NetComms.Tcp/TcpConnection.cs:132 | while the queue is empty every issued tag is pending, so the counter only grows with that many outstanding transactions |
| Tags.Route | NetComms.Tcp/TcpConnection.cs:224-254 | tag 0 is a notification; a pending tag with a handler is a response to that handler; a pending tag is removed and queued at the back; any other tag, and a pending tag whose handler was null, is a transaction carrying that tag and message |
| Tags.RouteValid | NetComms.Tcp/TcpConnection.cs:233-240 | dispatching any inbound frame keeps the pool invariant |
| Tags.ResponseRecyclesTag | NetComms.Tcp/TcpConnection.cs:235-239 | after its response arrives a tag is no longer pending, is not handed out by the counter again, and is the next one allocated when no other tag was queued |
| Tags.ApplyAllValid | NetComms.Tcp/TcpConnection.cs:129-136 | over any interleaving of allocations and inbound frames that does not exhaust the counter, no tag is both queued and pending, queued tags stay distinct, and every issued tag is accounted for |
| Demux.RunStream | NetComms.Tcp/TcpConnection.cs:189-264 | the stream receive loop raises ConnectionDropped exactly once, as its last event, and never touches the tag counter |
| Demux.RunStreamValid | NetComms.Tcp/TcpConnection.cs:233-240 | the stream loop keeps the pool invariant however the stream is cut |
| Demux.RunStreamFrame | NetComms.Tcp/TcpConnection.cs:197-254 | a stream that begins with an encoded frame has that frame dispatched first, then the rest of the stream |
| Demux.NotificationsInOrder | NetComms.Tcp/TcpConnection.cs:225-229 | notifications sent back to back are raised at the receiver once each, in order, with the same payloads, followed only by the drop when the stream ends; the pool is unchanged |
| Demux.ThreeNotificationsArriveInOrder | NetComms.Tcp.Test/LoopBackTest.cs:32-46 | the notifications [1,2,3], [4,5,6], [7,8,9] arrive as exactly those three notifications, in that order |
| KeepAlive.Tick | NetComms.Udp/UdpConnection.cs:182 | every tick counts one more missed probe, and it drops the connection exactly when the count after it exceeds probes + 1 |
| KeepAlive.FirstDrop | NetComms.Udp/UdpConnection.cs:179-192 | only a probe tick can drop a connection, never a datagram |
| KeepAlive.SilenceDrops | NetComms.Udp/UdpConnection.cs:182 | with no datagram, the dropping tick is the first one whose count before the increment exceeds `probes` |
| KeepAlive.DropOnTickProbesPlusTwo | NetComms.Udp/UdpConnection.cs:179-192 | after a datagram, a connection survives probes + 1 silent ticks and is dropped on tick probes + 2 |
| KeepAlive.DroppedIffLongSilence | NetComms.Udp/UdpConnection.cs:179-199 | a connection is dropped exactly when some run of ticks without a datagram is longer than probes + 1 |
| KeepAlive.PacketEveryIntervalKeepsAlive | NetComms.Udp/UdpConnection.cs:198-199 | a connection that gets a datagram between every two ticks is never dropped |
| Tcp.Read | NetComms.Tcp/TcpConnection.cs:280-293 | Read returns `count`, or fewer only when the stream ended first; the bytes received land at `offset`, in order, and nothing else in the buffer changes |
| Tcp.ReceiveFrame | NetComms.Tcp/TcpConnection.cs:203-222 | the three reads succeed exactly when the stream holds a whole frame within the length bound, and then consume exactly that frame |
| Tcp.TcpConnection.Client | NetComms.Tcp/TcpConnectionClient.cs:22-27 | a new client connection has the client seed 0x10000000..0x10000009, no socket, no thread and no events |
| Tcp.TcpConnection.Server | NetComms.Tcp/TcpConnectionServer.cs:8-11 | a server-role connection wraps the accepted socket and has the server seed 0x20000000..0x20000009 |
| Tcp.TcpConnection.SeedTags | NetComms.Tcp/TcpConnection.cs:53-56 | the seeding loop leaves exactly the seed's queue and counter |
| Tcp.TcpConnection.Dispose | NetComms.Tcp/TcpConnection.cs:89-101 | Dispose cancels, forgets the thread, disposes and clears the socket, changing nothing else of it; a second Dispose changes nothing |
| Tcp.TcpConnection.StartThread | NetComms.Tcp/TcpConnection.cs:178-187 | the receive loop starts once; a second Start fails with "Already started" |
| Tcp.TcpConnection.Start | NetComms.Tcp/TcpConnectionClient.cs:32-61 | a client with a socket fails with "Already connected" and changes nothing; otherwise it creates a socket, connects and starts; any failure leaves the new socket disposed, the field null and the thread flag as it was; the server role only starts its loop |
| Tcp.TcpConnection.SendNotification | NetComms.Tcp/TcpConnection.cs:103-123 | one frame with tag 0 is sent, unless the socket is missing, disposed or reset, which is reported as that exception; nothing else of the socket changes |
| Tcp.TcpConnection.SendTransaction | NetComms.Tcp/TcpConnection.cs:125-155 | the pool allocates a tag and records the handler, keeping the pool invariant; one frame with that tag is sent; the tag stays pending when the send fails |
| Tcp.TcpConnection.SendResponse | NetComms.Tcp/TcpConnection.cs:157-176 | one frame echoing the given tag is sent, or the send's exception is reported |
| Tcp.TcpConnection.Dispatch | NetComms.Tcp/TcpConnection.cs:224-254 | the pool and the event raised are exactly those of the three-way dispatch `Tags.Route` |
| Tcp.TcpConnection.ReceiveOne | NetComms.Tcp/TcpConnection.cs:203-254 | one pass of the loop consumes one frame and keeps the events raised so far plus those still to come equal to those of the whole stream; when no frame can be read, the pool and the events are unchanged and what is left of the stream yields only the drop |
| Tcp.TcpConnection.ProcessConnection | NetComms.Tcp/TcpConnection.cs:189-264 | the receive loop raises exactly the events of `RunStream` over what the peer sends, ending with ConnectionDropped, and keeps the pool invariant; a cancelled loop raises only ConnectionDropped |
| Tcp.TcpTransaction.constructor | NetComms.Tcp/TcpTransaction.cs:31-36 | a transaction holds its connection, tag and command, which never change, and is not yet answered |
| Tcp.TcpTransaction.SendResponse | NetComms.Tcp/TcpTransaction.cs:52-61 | the first call marks the transaction answered before sending one frame with its tag, so the mark stays when the send fails; every later call fails with "Response already sent" and sends nothing; only the socket's log of sends can change |
| Udp.AfterPacket | NetComms.Udp/UdpConnection.cs:194-244 | any datagram, ping and malformed ones included, sets the missed count to 0; one that passes the corrected datagram check `Wire.ParsePacket` is dispatched as `Tags.Route` does; others change nothing else |
| Udp.TurnLink | NetComms.Udp/UdpConnectionClient.cs:114-143 | a turn that goes on counts one missed probe when the deadline is reached, and a datagram then sets the count to 0 |
| Udp.ClientTurn | NetComms.Udp/UdpConnectionClient.cs:111-143 | one turn of the client loop: the deadline moves to now + interval when reached; the loop stops exactly when that tick drops or its ping raises; a drop raises ConnectionDropped |
| Udp.RunClient | NetComms.Udp/UdpConnectionClient.cs:102-145 | a client loop that drops ends with ConnectionDropped as its last event, and one that crashes does so with its ping's exception |
| Udp.TurnAgrees | NetComms.Udp/UdpConnectionClient.cs:114-143 | a turn that does not drop leaves the missed count where the keep-alive counter fed that turn's tick and datagram leaves it |
| Udp.ClientDropsIffKeepAliveDrops | NetComms.Udp/UdpConnectionClient.cs:108-143 | the client loop, with its first tick due at `interval`, drops the connection exactly when the keep-alive counter fed its ticks and datagrams drops it |
| Udp.UdpConnection.Client | NetComms.Udp/UdpConnectionClient.cs:36-39 | a new client connection has the client seed, no missed probes, no socket and no thread |
| Udp.UdpConnection.Server | NetComms.Udp/UdpConnectionServer.cs:8-11 | a server-role connection shares the server's socket and has the server seed |
| Udp.UdpConnection.SeedTags | NetComms.Udp/UdpConnection.cs:60-63 | the seeding loop leaves exactly the seed's queue and counter |
| Udp.UdpConnection.Dispose | NetComms.Udp/UdpConnectionClient.cs:41-53 | a client cancels, forgets its thread, disposes and clears the socket, changing nothing else of it, and a second Dispose changes nothing; the server role changes nothing |
| Udp.UdpConnection.Start | NetComms.Udp/UdpConnectionClient.cs:59-100 | a client with a socket fails with "Already connected"; otherwise it creates a socket with the peer address family's datagram limit, sends one zero-byte ping and starts its loop; if the ping raises, the socket is disposed and cleared and the loop is not started; the server role changes nothing |
| Udp.UdpConnection.SendPing | NetComms.Udp/UdpConnection.cs:98-102 | one zero-byte datagram goes to the peer, or the send's exception is reported |
| Udp.UdpConnection.SendNotification | NetComms.Udp/UdpConnection.cs:104-124 | one datagram holding a frame with tag 0 goes to the peer, or the send's exception is reported, SocketException included when the frame exceeds the datagram limit |
| Udp.UdpConnection.SendTransaction | NetComms.Udp/UdpConnection.cs:126-156 | the pool allocates a tag and records the handler, keeping the pool invariant; one datagram with that tag is sent; the tag stays pending when the send fails |
| Udp.UdpConnection.SendResponse | NetComms.Udp/UdpConnection.cs:158-177 | one datagram echoing the given tag goes to the peer, or the send's exception is reported |
| Udp.UdpConnection.ProcessProbeTick | NetComms.Udp/UdpConnection.cs:179-192 | every tick counts one more missed probe; it reports a drop and raises ConnectionDropped, without pinging, exactly when the count before the tick exceeds `probes`, and otherwise sends one ping |
| Udp.UdpConnection.Dispatch | NetComms.Udp/UdpConnection.cs:213-243 | the pool and the event raised are exactly those of the three-way dispatch `Tags.Route` |
| Udp.UdpConnection.ProcessPacket | NetComms.Udp/UdpConnection.cs:194-244 | the connection ends in the state `AfterPacket` gives, with the corrected check, and keeps the pool invariant |
| Udp.UdpConnection.TakeTurn | NetComms.Udp/UdpConnectionClient.cs:111-143 | one turn of the loop is exactly `ClientTurn`, and sends one ping on each tick that goes on |
| Udp.UdpConnection.ProcessConnection | NetComms.Udp/UdpConnectionClient.cs:102-145 | the client loop ends in the state and with the exit `RunClient` gives, having sent one ping per tick that did not end it; a cancelled loop changes nothing |
| Udp.UdpTransaction.constructor | NetComms.Udp/UdpTransaction.cs:28-33 | a transaction holds its connection, tag and command, which never change, and is not yet answered |
| Udp.UdpTransaction.SendResponse | NetComms.Udp/UdpTransaction.cs:49-58 | the first call marks the transaction answered before sending one datagram with its tag, so the mark stays when the send fails; every later call fails with "Response already sent" and sends nothing; only the socket's log of sends can change |
| Broadcast.Reach | NetComms.Tcp/TcpServer.cs:119-129 | a broadcast reaches every member before the first exception other than SocketException, and stops there |
| Broadcast.Raised | NetComms.Tcp/TcpServer.cs:119-129 | a broadcast raises nothing exactly when no member's send raises anything but SocketException; otherwise it raises the first such exception |
| Broadcast.SocketFaultsDoNotStop | NetComms.Udp/UdpServer.cs:144-154 | when sends fail only with SocketException, the broadcast reaches every member and raises nothing |
| TcpServing.Accepted | NetComms.Tcp/TcpServer.cs:135-142 | the accept loop accepts at most one client per poll; AcceptedIffIncoming states which |
| TcpServing.AcceptedIffIncoming | NetComms.Tcp/TcpServer.cs:135-142 | a poll is among the accepted clients exactly when it is incoming, and only incoming polls are accepted |
| TcpServing.TcpServer.constructor | NetComms.Tcp/TcpServer.cs:49-52 | a new server has no listener, no thread and no connections |
| TcpServing.TcpServer.Dispose | NetComms.Tcp/TcpServer.cs:74-85 | Dispose cancels, forgets the thread, disposes and clears the listener, changing nothing else of it, and leaves the connections alone; a second Dispose changes nothing |
| TcpServing.TcpServer.Start | NetComms.Tcp/TcpServer.cs:87-108 | a second Start fails with "Already started" and changes nothing; otherwise a listener is created and bound, and the loop starts only if the bind succeeds |
| TcpServing.TcpServer.SendNotification | NetComms.Tcp/TcpServer.cs:110-130 | each member of the snapshot receives one notification frame, up to the first exception other than SocketException, which is raised; a member whose send raised SocketException receives nothing, and later members are still reached; only the members' logs of sends change |
| TcpServing.TcpServer.ProcessServer | NetComms.Tcp/TcpServer.cs:132-166 | each accepted client becomes a server-role connection, in order; it is added to the set, subscribed to and announced with NewConnection; earlier connections are kept; a cancelled loop changes nothing |
| TcpServing.TcpServer.AcceptAll | NetComms.Tcp/TcpServer.cs:135-165 | the loop adds, subscribes and announces one connection per accepted client, in order |
| TcpServing.TcpServer.Accept | NetComms.Tcp/TcpServer.cs:142-164 | an accepted socket becomes a new started server-role connection, appended to the set, subscribed and announced with NewConnection |
| TcpServing.TcpServer.Forward | NetComms.Tcp/TcpServer.cs:168-184 | a subscribed connection's notification or transaction is re-published; its drop unsubscribes it and is re-published; an unsubscribed connection reaches no handler |
| TcpServing.TcpServer.OnConnectionDropped | NetComms.Tcp/TcpServer.cs:168-174 | a drop unsubscribes the connection and is re-published; the connection stays in the set |
| UdpTable.Handle | NetComms.Udp/UdpServer.cs:222-223 | handling a datagram changes only the entry of its endpoint, to what `AfterPacket` gives, and sends nothing |
| UdpTable.Deliver | NetComms.Udp/UdpServer.cs:198-223 | a datagram adds its sender to the table if new, removes no entry and sends nothing; DeliverTidy and DeliverSilent state the rest |
| UdpTable.TickOne | NetComms.Udp/UdpServer.cs:177-178 | an entry's tick sends at most one ping, to that entry's endpoint, and halts the loop only when that ping raises, with its exception |
| UdpTable.TickEach | NetComms.Udp/UdpServer.cs:176-178 | a probe tick over the entries sends at most one ping per entry and keeps every earlier send; TickEachCountsOnce and TickHaltIsFinal state the rest |
| UdpTable.RunServer | NetComms.Udp/UdpServer.cs:166-223 | the server loop as a function of its turns; its meaning is stated by EachEndpointAnnouncedOnce, HaltIsFinal and DroppedEndpointStaysSilent |
| UdpTable.Forward | NetComms.Udp/UdpServer.cs:228-244 | a subscribed entry's notification or transaction is re-published; its drop unsubscribes it and is re-published; an unsubscribed entry reaches no handler; the table is untouched |
| UdpTable.Admit | NetComms.Udp/UdpServer.cs:204-220 | the first datagram from an endpoint appends one fresh server-role entry, subscribes to it and announces it; a known endpoint's entry is reused unchanged |
| UdpTable.ServerTurn | NetComms.Udp/UdpServer.cs:166-223 | the deadline moves to now + interval when reached, and a turn with no tick and no datagram (poll timeout or receive error) changes nothing |
| UdpTable.TickHaltIsFinal | NetComms.Udp/UdpServer.cs:176-178 | a ping that raises during a tick ends it: later entries are not ticked |
| UdpTable.HaltIsFinal | NetComms.Udp/UdpServer.cs:166-178 | a raising ping ends the server loop: no later turn is taken |
| UdpTable.ForwardTidy | NetComms.Udp/UdpServer.cs:228-244 | the handlers keep the table consistent and remove nothing |
| UdpTable.AdmitTidy | NetComms.Udp/UdpServer.cs:204-220 | creating an entry keeps the table consistent: one entry per endpoint and one NewConnection per entry |
| UdpTable.DeliverTidy | NetComms.Udp/UdpServer.cs:202-223 | handling a datagram keeps the table consistent and removes no entry or event |
| UdpTable.TickEachTidy | NetComms.Udp/UdpServer.cs:176-178 | a probe tick keeps the table consistent and changes no key of it |
| UdpTable.ServerTurnTidy | NetComms.Udp/UdpServer.cs:166-223 | a turn of the loop keeps the table consistent and removes nothing |
| UdpTable.EachEndpointAnnouncedOnce | NetComms.Udp/UdpServer.cs:202-220 | however the loop runs, NewConnection has been published exactly once per entry, in creation order, and no entry or event is ever removed |
| UdpTable.TickEachCountsOnce | NetComms.Udp/UdpServer.cs:176-178 | ticking distinct entries counts one more missed probe on each of them and leaves every other entry as it was |
| UdpTable.TickAllCountsOnce | NetComms.Udp/UdpServer.cs:169-179 | a due tick that ends normally ticks every entry of the table exactly once |
| UdpTable.DroppedEndpointStaysSilent | NetComms.Udp/UdpServer.cs:228-234 | once its drop has been re-published, an endpoint keeps its entry, whatever it sends later, yet no later server event is about it |
| UdpTable.DroppedEntryDropsAgain | NetComms.Udp/UdpServer.cs:176-178 | a dropped entry that stays silent drops again on every tick and sends no ping; the server hears nothing of it |
| UdpServing.SendsOnlyFrame | NetComms.Udp/UdpServer.cs:144-154 | a broadcast puts only the notification's frame on the shared socket, and only to endpoints of the snapshot |
| UdpServing.SendsAll | NetComms.Udp/UdpServer.cs:144-154 | when every send succeeds (each destination reachable and the frame within the datagram limit), a broadcast sends the frame to every endpoint of the snapshot, in table order |
| UdpServing.OversizedBroadcastSendsNothing | NetComms.Udp/UdpServer.cs:144-154 | a notification whose frame exceeds the datagram limit reaches no endpoint, yet the broadcast raises nothing |
| UdpServing.UdpServer.constructor | NetComms.Udp/UdpServer.cs:63-68 | a new server has an empty table, no socket and no thread |
| UdpServing.UdpServer.Dispose | NetComms.Udp/UdpServer.cs:90-101 | Dispose cancels, forgets the thread, disposes and clears the socket, changing nothing else of it, and leaves the table alone; a second Dispose changes nothing |
| UdpServing.UdpServer.Start | NetComms.Udp/UdpServer.cs:103-133 | a second Start fails with "Already started" and changes nothing; otherwise a socket with the given datagram limit is created and bound, and the loop starts only if the bind succeeds, the socket staying assigned either way |
| UdpServing.UdpServer.SendNotification | NetComms.Udp/UdpServer.cs:135-155 | a datagram with the notification frame goes to each endpoint of the snapshot, in table order, up to the first exception other than SocketException, which is raised |
| UdpServing.UdpServer.Forward | NetComms.Udp/UdpServer.cs:228-244 | the server's handlers act as `UdpTable.Forward` |
| UdpServing.UdpServer.OnConnectionDropped | NetComms.Udp/UdpServer.cs:228-234 | a drop unsubscribes the endpoint and is re-published; the entry stays in the table |
| UdpServing.UdpServer.Find | NetComms.Udp/UdpServer.cs:204-220 | the lookup acts as `UdpTable.Admit`; on a miss exactly one new connection is stored |
| UdpServing.UdpServer.Process | NetComms.Udp/UdpServer.cs:223 | the endpoint's connection processes the datagram as `AfterPacket` gives, and an event is raised exactly when the datagram is a message |
| UdpServing.UdpServer.HandleEntry | NetComms.Udp/UdpServer.cs:222-223 | the entry processes the datagram and its event reaches the handlers, as `UdpTable.Handle` gives |
| UdpServing.UdpServer.Receive | NetComms.Udp/UdpServer.cs:198-223 | a datagram from an endpoint finds or creates its entry and is handled there, as `UdpTable.Deliver` gives |
| UdpServing.UdpServer.Probe | NetComms.Udp/UdpServer.cs:177 | an entry's ProcessProbeTick counts one more missed probe; on a drop it records ConnectionDropped and sends nothing, otherwise it sends one ping, or reports the ping's exception |
| UdpServing.UdpServer.TickEntry | NetComms.Udp/UdpServer.cs:177-178 | one entry's probe tick, with its drop forwarded to the handlers, is `UdpTable.TickOne` |
| UdpServing.UdpServer.TickAll | NetComms.Udp/UdpServer.cs:169-179 | a due tick ticks the entries in table order as `UdpTable.TickEach` gives, stopping at a ping that raises |
| UdpServing.UdpServer.ServeTurn | NetComms.Udp/UdpServer.cs:166-223 | one turn of the server loop is `UdpTable.ServerTurn` |
| UdpServing.UdpServer.ProcessServer | NetComms.Udp/UdpServer.cs:157-226 | the server loop, with its first tick due at `interval`, ends in the state and halt `UdpTable.RunServer` gives; a cancelled loop changes nothing |

## Left out

- Threads, `CancellationTokenSource`, locks, `Poll` and `Join` are left
  out. The model is sequential: each locked region is one step, and the
  stop flag is a boolean read when a loop starts.
- Poll time-outs are left out of the TCP loops. A UDP loop sees them as
  a `Quiet` turn.
- `Stopwatch` is replaced by the clock reading `now` given with each
  turn.
- Logging is left out: it is a fire-and-forget sink.
- The Windows `SIO_UDP_CONNRESET` control, `DualMode` and buffer-size
  settings are left out: they are operating-system configuration.
- Event delegates are left out. An event is appended to a list, and a
  subscription is membership in a set. Exceptions thrown by subscribers'
  own handlers are not modelled.
- `BitConverter` byte order is fixed to little-endian.
- The providers (`TcpProvider`, `UdpProvider`), the interfaces, the
  EventArgs classes, `AssociatedData` and the example programs are not
  part of this model.
- Tcp.TcpConnection.ProcessConnection: a SocketException from
  `Receive` is not modelled. The modelled socket delivers its bytes and
  then reports the end of the stream, so the catch at
  NetComms.Tcp/TcpConnection.cs:257-260 never applies. Its effect, a
  drop, would be the same.
- TcpServing.TcpServer.Accept: `Accept` is assumed to succeed. A fault
  there is uncaught on the server's thread and would terminate the
  process.
- TcpServing.TcpServer.ProcessServer: the loop is given the outcomes of
  its polls, not a socket.
- Tcp.TcpConnection.SendTransaction and
  Udp.UdpConnection.SendTransaction require that the tag counter is not
  at int32 max while the queue is empty. Reaching that needs about
  2^31 - 2^28 outstanding transactions (`Tags.EmptyQueueAllPending`).
  Wrap-around past it is not modelled.
- Tcp.TcpConnection.SendNotification, Tcp.TcpConnection.SendResponse and
  the UDP send methods require payloads of at most int32 max bytes, the
  size limit of a C# array.
- Udp.UdpConnection.ProcessPacket and the UDP loops use the corrected
  datagram check `Wire.ParsePacket`. The source's behaviour on a 4-7-byte
  datagram with a negative length (an OverflowException, uncaught on the
  receive thread, that terminates the process) is captured only by
  `Wire.ParsePacketAsWritten` and its lemmas (see Findings).
- Udp.UdpConnection.ProcessConnection and Udp.RunClient: a client
  accepts a datagram from any sender, as the source does, since the
  sender's endpoint is not checked. A ping that raises during a tick
  ends the client loop as `Crashed`. In the source that exception is
  uncaught on the receive thread and terminates the process.
- UdpServing.UdpServer.ProcessServer requires a socket. The loop only
  runs after Start, and Dispose joins the loop before clearing the
  socket. A ping that raises during the server's tick ends the loop as
  `Halted`. In the source that exception is uncaught on the server's
  thread and terminates the process.
- UdpServing.UdpServer.SendNotification takes the shared socket as a
  ghost parameter, and every entry sends on it.
- TcpServing.TcpServer.SendNotification: the enumeration order of the
  `HashSet` is modelled as insertion order. For `UdpServer`, the
  enumeration order of the `Dictionary` is modelled as the order in
  which entries were made.
- UdpServing.UdpServer: the connection state of each entry is mirrored
  in a ghost map, so that the loop can be stated as a function on
  values (`UdpTable`).

## Findings

| source | as written | input that shows it | evidently intended | confidence | as-written member | corrected member |
|---|---|---|---|---|---|---|
| NetComms.Udp/UdpConnection.cs:202-210 | the only check is `len == packetLen - 8`, so a datagram of 4-7 bytes can pass it with a negative `len`, and `new byte[len]` then throws OverflowException, which no receive loop catches; an exception uncaught on a thread terminates the process, so any host that can send this datagram brings down the application, client or server | the 4-byte datagram FC FF FF FF: its length word is -4 = 4 - 8 | a datagram is a message only when it holds a whole 8-byte header and its length word counts the bytes after it; anything else is discarded like any other malformed datagram | not executed | Wire.AsWrittenAcceptsNegativeLength | Wire.ParsePacket |
