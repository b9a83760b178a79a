/** The stream connection (TcpConnection with its client and server roles,
    TcpConnectionClient and TcpConnectionServer) and its transaction handle
    (TcpTransaction). */
module Tcp {
  import opened Wire
  import opened Tags
  import opened Demux
  import opened Sockets

  /** SocketExtensions.Read: receive until `count` bytes have arrived or a
      receive returns nothing.  The result is short only when the stream
      ended, and the bytes land at `offset` in arrival order. */
  method Read(socket: StreamSocket, buffer: array<byte>, offset: nat, count: nat) returns (pos: nat)
    requires offset + count <= buffer.Length
    modifies socket`incoming, buffer
    ensures pos == (if |old(socket.incoming)| < count then |old(socket.incoming)| else count)
    ensures socket.incoming == old(socket.incoming)[pos..]
    ensures buffer[offset..offset + pos] == old(socket.incoming)[..pos]
    ensures forall k :: 0 <= k < buffer.Length && !(offset <= k < offset + pos) ==> buffer[k] == old(buffer[k])
  {
    pos := 0;
    while pos < count
      invariant pos <= count && pos <= |old(socket.incoming)|
      invariant socket.incoming == old(socket.incoming)[pos..]
      invariant buffer[offset..offset + pos] == old(socket.incoming)[..pos]
      invariant forall k :: 0 <= k < buffer.Length && !(offset <= k < offset + pos) ==> buffer[k] == old(buffer[k])
      decreases count - pos
    {
      ghost var before := buffer[..];
      var nr := socket.Receive(buffer, offset + pos, count - pos);
      if nr == 0 {
        assert buffer[..] == before;
        assert |old(socket.incoming)| == pos;
        break;
      }
      forall k | 0 <= k < pos + nr
        ensures buffer[offset + k] == old(socket.incoming)[k]
      {
        if k < pos {
          assert before[offset + k] == old(socket.incoming)[..pos][k];
        }
      }
      assert buffer[offset..offset + pos + nr] == old(socket.incoming)[..pos + nr];
      pos := pos + nr;
    }
  }

  /** The reading half of one receive-loop pass: the length word, its bound,
      the tag word, then the payload.  It succeeds exactly when the stream
      holds a whole frame within the bound, and then consumes that frame. */
  method ReceiveFrame(socket: StreamSocket, buffer: array<byte>) returns (ok: bool, tag: Int32, message: seq<byte>)
    requires buffer.Length == 4
    modifies socket`incoming, buffer
    ensures ok <==> ReadFrame(old(socket.incoming)).Frame?
    ensures ok ==> ReadFrame(old(socket.incoming)) == Frame(tag, message, socket.incoming)
    ensures |socket.incoming| <= |old(socket.incoming)|
  {
    ghost var input := socket.incoming;
    tag, message := 0, [];
    var n := Read(socket, buffer, 0, 4);
    if n != 4 {
      return false, tag, message;
    }
    assert buffer[..] == input[..4];
    var len := FromLe32(buffer[..]);
    if len < 0 || len > MaxFrameLength {
      return false, tag, message;
    }
    ghost var afterLength := socket.incoming;
    assert afterLength == input[4..];
    n := Read(socket, buffer, 0, 4);
    if n != 4 {
      return false, tag, message;
    }
    assert buffer[..] == buffer[0..4] == afterLength[..4] == input[4..8];
    tag := FromLe32(buffer[..]);
    var payload := new byte[len];
    ghost var afterTag := socket.incoming;
    assert afterTag == input[HeaderSize..];
    n := Read(socket, payload, 0, len);
    if n != len {
      return false, tag, message;
    }
    message := payload[..];
    assert message == payload[0..len] == afterTag[..len] == input[HeaderSize..HeaderSize + len];
    assert socket.incoming == input[HeaderSize + len..];
    ok := true;
  }

  class TcpConnection {
    const role: Role
    const address: nat
    /** Server port a client-role connection connects to. */
    const port: nat
    var socket: StreamSocket?
    var tagQueue: seq<int>
    var transactions: map<int, Handler>
    var tagNext: int
    /** `_thread != null`: the receive loop has been started. */
    var threadStarted: bool
    /** Cancellation has been requested. */
    var cancelled: bool
    /** The events this connection has raised, and the handlers it has run. */
    var events: seq<ConnEvent>

    function TagPool(): Pool
      reads this
    {
      Pool(tagQueue, transactions, tagNext)
    }

    ghost predicate Valid()
      reads this
    {
      Tags.Valid(TagPool(), TagBase(role))
    }

    /** TcpConnectionClient: not yet connected. */
    constructor Client(address: nat, port: nat)
      ensures role.Client? && this.address == address && this.port == port
      ensures TagPool() == Seed(ClientTagBase) && Valid()
      ensures socket == null && !threadStarted && !cancelled && events == []
    {
      role := Role.Client;
      this.address := address;
      this.port := port;
      socket := null;
      transactions := map[];
      threadStarted, cancelled, events := false, false, [];
      new;
      SeedTags();
      SeedValid(ClientTagBase);
    }

    /** TcpConnectionServer: wraps a socket the server accepted. */
    constructor Server(address: nat, accepted: StreamSocket)
      ensures role.Server? && this.address == address && socket == accepted
      ensures TagPool() == Seed(ServerTagBase) && Valid()
      ensures !threadStarted && !cancelled && events == []
    {
      role := Role.Server;
      this.address := address;
      port := 0;
      socket := accepted;
      transactions := map[];
      threadStarted, cancelled, events := false, false, [];
      new;
      SeedTags();
      SeedValid(ServerTagBase);
    }

    /** The base constructor's loop: queue ten consecutive tags from the
        role's base. */
    method SeedTags()
      modifies this`tagQueue, this`tagNext
      ensures tagQueue == Seed(TagBase(role)).queue && tagNext == Seed(TagBase(role)).next
    {
      var base := TagBase(role);
      tagNext := base;
      tagQueue := [];
      var i := 0;
      while i < SeedCount
        invariant 0 <= i <= SeedCount
        invariant tagNext == base + i
        invariant tagQueue == seq(i, k => base + k)
      {
        tagQueue := tagQueue + [tagNext];
        tagNext := tagNext + 1;
        i := i + 1;
      }
    }

    /** Dispose: request cancellation, forget the (joined) thread, then
        release the socket.  Once disposed, disposing again changes nothing. */
    method Dispose()
      modifies this`cancelled, this`threadStarted, this`socket, {socket}`disposed
      ensures cancelled && !threadStarted && socket == null
      ensures old(socket) != null ==> old(socket).disposed
      ensures old(cancelled) && !old(threadStarted) && old(socket) == null ==> unchanged(this)
    {
      cancelled := true;
      threadStarted := false;
      if socket != null {
        socket.Dispose();
      }
      socket := null;
    }

    /** TcpConnection.Start: the receive loop may be started once. */
    method StartThread() returns (r: Outcome)
      modifies this`threadStarted
      ensures threadStarted
      ensures r == if old(threadStarted) then Fail(AlreadyStarted) else Done
    {
      if threadStarted {
        return Fail(AlreadyStarted);
      }
      threadStarted := true;
      r := Done;
    }

    /** Start.  A server-role connection only starts its loop.  A client
        refuses to start while it has a socket; otherwise it creates one
        (`peer` is what the server will send on it and `resets` whether the
        server then resets the connection), connects (`connects` says
        whether that succeeds) and starts its loop; if any step fails the new
        socket is released and forgotten. */
    method Start(peer: seq<byte>, resets: bool, connects: bool) returns (r: Outcome, ghost created: StreamSocket?)
      modifies this`socket, this`threadStarted
      ensures role.Server? ==>
                created == null && socket == old(socket) && threadStarted
                && r == (if old(threadStarted) then Fail(AlreadyStarted) else Done)
      ensures role.Client? && old(socket) != null ==>
        created == null && r == Fail(AlreadyConnected) && socket == old(socket) && threadStarted == old(threadStarted)
      ensures role.Client? && old(socket) == null ==>
        created != null && fresh(created) && created.incoming == peer && created.broken == resets
      ensures role.Client? && old(socket) == null ==>
        r == (if !connects then Fail(SocketFault) else if old(threadStarted) then Fail(AlreadyStarted) else Done)
      ensures role.Client? && old(socket) == null && r.Done? ==> socket == created && threadStarted && !created.disposed
      ensures role.Client? && old(socket) == null && r.Fail? ==>
        socket == null && created.disposed && threadStarted == old(threadStarted)
    {
      created := null;
      if role.Server? {
        r := StartThread();
        return;
      }
      if socket != null {
        return Fail(AlreadyConnected), null;
      }
      var s := new StreamSocket(peer, resets);
      created := s;
      socket := s;
      if !connects {
        r := Fail(SocketFault);
      } else {
        r := StartThread();
      }
      if r.Fail? {
        s.Dispose();
        socket := null;
      }
    }

    /** SendNotification: one frame with tag 0. */
    method SendNotification(notification: seq<byte>) returns (r: Outcome)
      requires |notification| <= Int32Max
      modifies {socket}`sent
      ensures r == old(SendOutcome(socket))
      ensures socket != null ==> socket.sent == old(socket.sent) + if r.Done? then [EncodeFrame(NotificationTag, notification)] else []
      ensures socket != null ==> unchanged(socket`incoming, socket`broken, socket`disposed)
    {
      var packet := Le32(|notification|) + Le32(NotificationTag) + notification;
      if socket == null {
        return Fail(NullSocket);
      }
      r := socket.Send(packet);
    }

    /** SendTransaction: allocate a tag and record the handler under the
        lock, then send one frame with that tag.  The tag stays pending even
        when the send fails. */
    method SendTransaction(command: seq<byte>, handler: Handler) returns (tag: int, r: Outcome)
      requires Valid() && CanAllocate(TagPool()) && |command| <= Int32Max
      modifies this`tagQueue, this`transactions, this`tagNext, {socket}`sent
      ensures Valid()
      ensures tag == Allocate(old(TagPool()), handler).tag && TagPool() == Allocate(old(TagPool()), handler).pool
      ensures tag != NotificationTag && tag !in old(transactions) && transactions[tag] == handler
      ensures r == old(SendOutcome(socket))
      ensures socket != null ==>
                Int32Min <= tag <= Int32Max
                && socket.sent == old(socket.sent) + if r.Done? then [EncodeFrame(tag, command)] else []
      ensures socket != null ==> unchanged(socket`incoming, socket`broken, socket`disposed)
    {
      AllocateValid(TagPool(), TagBase(role), handler);
      if |tagQueue| == 0 {
        tag := tagNext;
        tagNext := tagNext + 1;
      } else {
        tag := tagQueue[0];
        tagQueue := tagQueue[1..];
      }
      transactions := transactions[tag := handler];
      var packet := Le32(|command|) + Le32(tag) + command;
      if socket == null {
        return tag, Fail(NullSocket);
      }
      r := socket.Send(packet);
    }

    /** SendResponse: one frame echoing the peer's tag. */
    method SendResponse(tag: Int32, response: seq<byte>) returns (r: Outcome)
      requires |response| <= Int32Max
      modifies {socket}`sent
      ensures r == old(SendOutcome(socket))
      ensures socket != null ==> socket.sent == old(socket.sent) + if r.Done? then [EncodeFrame(tag, response)] else []
      ensures socket != null ==> unchanged(socket`incoming, socket`broken, socket`disposed)
    {
      var packet := Le32(|response|) + Le32(tag) + response;
      if socket == null {
        return Fail(NullSocket);
      }
      r := socket.Send(packet);
    }

    /** The dispatch of one inbound frame (the end of the receive loop's
        body): notification, response to one of ours, or a new transaction. */
    method Dispatch(tag: Int32, message: seq<byte>)
      modifies this`tagQueue, this`transactions, this`events
      ensures TagPool() == Route(old(TagPool()), tag, message).pool
      ensures events == old(events) + [Route(old(TagPool()), tag, message).event]
    {
      if tag == NotificationTag {
        events := events + [Notification(message)];
        return;
      }
      var handler := Null;
      if tag in transactions {
        handler := transactions[tag];
        transactions := transactions - {tag};
        tagQueue := tagQueue + [tag];
      }
      if handler != Null {
        events := events + [Response(handler, message)];
        return;
      }
      events := events + [Transaction(tag, message)];
    }

    /** One turn of the receive loop: read a frame and dispatch it, or
        report that the stream cannot yield one. */
    method ReceiveOne(buffer: array<byte>) returns (ok: bool)
      requires socket != null && Valid() && buffer.Length == 4
      modifies this`tagQueue, this`transactions, this`events, socket`incoming, buffer
      ensures Valid()
      ensures ok ==> |socket.incoming| < |old(socket.incoming)|
      ensures ok ==>
                RunStream(TagPool(), socket.incoming).pool == RunStream(old(TagPool()), old(socket.incoming)).pool
                && events + RunStream(TagPool(), socket.incoming).events
                   == old(events) + RunStream(old(TagPool()), old(socket.incoming)).events
      ensures !ok ==>
                TagPool() == old(TagPool()) && events == old(events)
                && RunStream(TagPool(), old(socket.incoming)) == StreamRun(TagPool(), [ConnectionDropped])
    {
      var tag, message;
      ok, tag, message := ReceiveFrame(socket, buffer);
      if !ok {
        return;
      }
      RouteValid(TagPool(), TagBase(role), tag, message);
      Dispatch(tag, message);
    }

    /** ProcessConnection: read and dispatch frames until the stream ends or
        a length is out of bounds, then raise ConnectionDropped.  The stop
        flag is checked before each frame. */
    method ProcessConnection()
      requires socket != null && Valid()
      modifies this`tagQueue, this`transactions, this`events, socket`incoming
      ensures Valid()
      ensures old(cancelled) ==> TagPool() == old(TagPool()) && events == old(events) + [ConnectionDropped]
      ensures !old(cancelled) ==>
        TagPool() == RunStream(old(TagPool()), old(socket.incoming)).pool
        && events == old(events) + RunStream(old(TagPool()), old(socket.incoming)).events
    {
      ghost var goal := RunStream(TagPool(), socket.incoming);
      var buffer := new byte[4];
      while !cancelled
        invariant old(cancelled) ==> TagPool() == old(TagPool()) && events == old(events)
        invariant Valid()
        invariant RunStream(TagPool(), socket.incoming).pool == goal.pool
        invariant events + RunStream(TagPool(), socket.incoming).events == old(events) + goal.events
        decreases |socket.incoming|
      {
        var ok := ReceiveOne(buffer);
        if !ok {
          break;
        }
      }
      events := events + [ConnectionDropped];
    }
  }

  /** A transaction the peer opened: it must be answered exactly once. */
  class TcpTransaction {
    const connection: TcpConnection
    const tag: Int32
    const command: seq<byte>
    var sent: bool

    constructor (connection: TcpConnection, tag: Int32, command: seq<byte>)
      ensures this.connection == connection && this.tag == tag && this.command == command
      ensures !sent
    {
      this.connection := connection;
      this.tag := tag;
      this.command := command;
      sent := false;
    }

    /** The first call marks the transaction answered, then sends a frame
        echoing the tag; the mark stays even if the send fails.  Any later
        call fails and sends nothing. */
    method SendResponse(response: seq<byte>) returns (r: Outcome)
      requires |response| <= Int32Max
      modifies this`sent, {connection.socket}`sent
      ensures sent
      ensures old(sent) ==>
                r == Fail(ResponseAlreadySent)
                && (connection.socket != null ==> connection.socket.sent == old(connection.socket.sent))
      ensures !old(sent) ==> r == old(SendOutcome(connection.socket))
      ensures !old(sent) && connection.socket != null ==>
        connection.socket.sent == old(connection.socket.sent) + if r.Done? then [EncodeFrame(tag, response)] else []
    {
      if sent {
        return Fail(ResponseAlreadySent);
      }
      sent := true;
      r := connection.SendResponse(tag, response);
    }
  }
}
