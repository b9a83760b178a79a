/** The datagram connection (UdpConnection with its client and server roles,
    UdpConnectionClient and UdpConnectionServer), the client's receive loop
    and the transaction handle (UdpTransaction). */
module Udp {
  import opened Wire
  import opened Tags
  import opened KeepAlive
  import opened Sockets

  /** The connection state the receive loop acts on. */
  datatype Link = Link(pool: Pool, missed: int, events: seq<ConnEvent>)

  /** ProcessPacket: any datagram clears the missed-probe count, whatever it
      holds; a well-formed one is dispatched like a stream frame. */
  function AfterPacket(s: Link, packet: seq<byte>): (t: Link)
    requires |packet| <= ReceiveBufferSize
    ensures t.missed == 0
    ensures ParsePacket(packet).Message? ==>
              var r := Route(s.pool, ParsePacket(packet).tag, ParsePacket(packet).payload);
              t.pool == r.pool && t.events == s.events + [r.event]
    ensures !ParsePacket(packet).Message? ==> t.pool == s.pool && t.events == s.events
  {
    match ParsePacket(packet)
    case Message(tag, payload) =>
      var r := Route(s.pool, tag, payload);
      Link(r.pool, 0, s.events + [r.event])
    case _ => Link(s.pool, 0, s.events)
  }

  /** What one turn of a receive loop finds after its probe check: the poll
      timed out, ReceiveFrom raised SocketException, or a datagram arrived. */
  datatype Arrival = Quiet | ReceiveError | Datagram(from: Endpoint, packet: seq<byte>)

  /** One turn of a receive loop: the stopwatch reading, then what arrived. */
  datatype Turn = Turn(now: int, arrival: Arrival)

  predicate Receivable(turns: seq<Turn>)
  {
    forall i :: 0 <= i < |turns| && turns[i].arrival.Datagram? ==> |turns[i].arrival.packet| <= ReceiveBufferSize
  }

  /** Why a client loop stopped. */
  datatype Exit =
    | Running            // the turns given ran out while the loop was still going
    | Cancelled          // the stop flag was set
    | Dropped            // a probe tick found the peer silent for too long
    | Crashed(failure: Failure)  // the ping of a probe tick raised, which ends the thread

  datatype ClientConfig = ClientConfig(probes: int, interval: int, ping: Outcome)

  datatype ClientRun = ClientRun(link: Link, nextProbe: int, pings: nat, exit: Exit)

  /** The connection after one turn that did not end the loop: the tick's
      count when the deadline was reached, then the datagram if one came. */
  function TurnLink(c: ClientConfig, s: Link, due: bool, arrival: Arrival): (t: Link)
    requires arrival.Datagram? ==> |arrival.packet| <= ReceiveBufferSize
    ensures arrival.Datagram? ==> t.missed == 0
    ensures !arrival.Datagram? ==> t.pool == s.pool && t.events == s.events
    ensures !arrival.Datagram? ==> t.missed == if due then s.missed + 1 else s.missed
  {
    var ticked := if due then Link(s.pool, Tick(s.missed, c.probes).missed, s.events) else s;
    if arrival.Datagram? then AfterPacket(ticked, arrival.packet) else ticked
  }

  /** One turn either keeps the loop going, reporting whether it pinged,
      or stops it. */
  datatype TurnResult =
    | Continue(link: Link, nextProbe: int, pinged: bool)
    | Stop(link: Link, nextProbe: int, exit: Exit)

  /** One turn of UdpConnectionClient.ProcessConnection: when the clock
      reaches the deadline, the next deadline is `now + interval` and a probe
      tick runs, which ends the loop on a drop (or when its ping raises);
      then a datagram, if one arrived, is processed. */
  function ClientTurn(c: ClientConfig, s: Link, nextProbe: int, turn: Turn): (r: TurnResult)
    requires turn.arrival.Datagram? ==> |turn.arrival.packet| <= ReceiveBufferSize
    ensures r.Stop? <==> turn.now >= nextProbe && (Tick(s.missed, c.probes).dropped || c.ping.Fail?)
    ensures r.nextProbe == if turn.now >= nextProbe then turn.now + c.interval else nextProbe
    ensures r.Continue? ==> r.pinged == (turn.now >= nextProbe) && r.link == TurnLink(c, s, r.pinged, turn.arrival)
    ensures r.Stop? ==> r.link.pool == s.pool && r.link.missed == s.missed + 1
    ensures r.Stop? && Tick(s.missed, c.probes).dropped ==> r.exit == Dropped && r.link.events == s.events + [ConnectionDropped]
    ensures r.Stop? && !Tick(s.missed, c.probes).dropped ==> r.exit == Crashed(c.ping.failure) && r.link.events == s.events
  {
    var due := turn.now >= nextProbe;
    var next := if due then turn.now + c.interval else nextProbe;
    var t := Tick(s.missed, c.probes);
    if due && t.dropped then Stop(Link(s.pool, t.missed, s.events + [ConnectionDropped]), next, Dropped)
    else if due && c.ping.Fail? then Stop(Link(s.pool, t.missed, s.events), next, Crashed(c.ping.failure))
    else Continue(TurnLink(c, s, due, turn.arrival), next, due)
  }

  /** UdpConnectionClient.ProcessConnection over a sequence of turns. */
  function RunClient(c: ClientConfig, s: Link, nextProbe: int, turns: seq<Turn>): (r: ClientRun)
    requires Receivable(turns)
    ensures r.exit.Dropped? ==> |r.link.events| > 0 && r.link.events[|r.link.events| - 1] == ConnectionDropped
    ensures r.exit.Crashed? ==> c.ping == Fail(r.exit.failure)
    ensures !r.exit.Cancelled?
    decreases |turns|
  {
    if turns == [] then ClientRun(s, nextProbe, 0, Running)
    else
      match ClientTurn(c, s, nextProbe, turns[0])
      case Stop(link, next, exit) => ClientRun(link, next, 0, exit)
      case Continue(link, next, pinged) =>
        var rest := RunClient(c, link, next, turns[1..]);
        rest.(pings := rest.pings + if pinged then 1 else 0)
  }

  /** The keep-alive signals of one turn: a tick when the deadline is
      reached, then a packet when a datagram arrives. */
  function TurnSignals(due: bool, arrival: Arrival): seq<Signal>
  {
    (if due then [Probe] else []) + (if arrival.Datagram? then [Packet] else [])
  }

  /** The keep-alive signals a sequence of turns produces. */
  function Signals(interval: int, nextProbe: int, turns: seq<Turn>): seq<Signal>
    decreases |turns|
  {
    if turns == [] then []
    else
      var due := turns[0].now >= nextProbe;
      TurnSignals(due, turns[0].arrival) + Signals(interval, if due then turns[0].now + interval else nextProbe, turns[1..])
  }

  /** One turn that does not drop leaves the counter where the keep-alive
      counter fed its signals leaves it. */
  lemma TurnAgrees(c: ClientConfig, s: Link, due: bool, arrival: Arrival)
    requires arrival.Datagram? ==> |arrival.packet| <= ReceiveBufferSize
    requires !(due && Tick(s.missed, c.probes).dropped)
    ensures FirstDrop(s.missed, c.probes, TurnSignals(due, arrival)).None?
    ensures MissedAfter(s.missed, c.probes, TurnSignals(due, arrival)) == TurnLink(c, s, due, arrival).missed
  {
    var sig := TurnSignals(due, arrival);
    if due && arrival.Datagram? {
      assert sig == [Probe, Packet] && sig[1..] == [Packet] && sig[1..][1..] == [];
      assert MissedAfter(s.missed + 1, c.probes, [Packet]) == 0;
    } else if due {
      assert sig == [Probe] && sig[1..] == [];
    } else if arrival.Datagram? {
      assert sig == [Packet] && sig[1..] == [];
    } else {
      assert sig == [];
    }
  }

  /** The client loop drops the connection exactly when the keep-alive
      counter, fed the ticks and datagrams of the turns, says so. */
  lemma {:induction false} ClientDropsIffKeepAliveDrops(c: ClientConfig, s: Link, nextProbe: int, turns: seq<Turn>)
    requires Receivable(turns) && c.ping.Done?
    ensures RunClient(c, s, nextProbe, turns).exit.Dropped? <==> FirstDrop(s.missed, c.probes, Signals(c.interval, nextProbe, turns)).Some?
    decreases |turns|
  {
    if turns != [] {
      var now := turns[0].now;
      var due := now >= nextProbe;
      var next := if due then now + c.interval else nextProbe;
      var first := TurnSignals(due, turns[0].arrival);
      var restSig := Signals(c.interval, next, turns[1..]);
      assert Signals(c.interval, nextProbe, turns) == first + restSig;
      if due && Tick(s.missed, c.probes).dropped {
        assert (first + restSig)[0] == Probe;
      } else {
        assert ClientTurn(c, s, nextProbe, turns[0]) == Continue(TurnLink(c, s, due, turns[0].arrival), next, due);
        TurnAgrees(c, s, due, turns[0].arrival);
        ClientDropsIffKeepAliveDrops(c, TurnLink(c, s, due, turns[0].arrival), next, turns[1..]);
        FirstDropSkip(s.missed, c.probes, first, restSig);
      }
    }
  }

  /** The counter after a prefix of signals that dropped nothing. */
  function MissedAfter(missed: int, probes: int, signals: seq<Signal>): int
    decreases |signals|
  {
    if signals == [] then missed
    else if signals[0] == Packet then MissedAfter(0, probes, signals[1..])
    else MissedAfter(Tick(missed, probes).missed, probes, signals[1..])
  }

  lemma {:induction false} FirstDropSkip(missed: int, probes: int, prefix: seq<Signal>, rest: seq<Signal>)
    requires FirstDrop(missed, probes, prefix).None?
    ensures FirstDrop(missed, probes, prefix + rest).Some? <==> FirstDrop(MissedAfter(missed, probes, prefix), probes, rest).Some?
    decreases |prefix|
  {
    if prefix != [] {
      assert (prefix + rest)[0] == prefix[0];
      assert (prefix + rest)[1..] == prefix[1..] + rest;
      var m := if prefix[0] == Packet then 0 else Tick(missed, probes).missed;
      assert !(prefix[0] == Probe && Tick(missed, probes).dropped);
      assert FirstDrop(m, probes, prefix[1..]).None?;
      assert MissedAfter(missed, probes, prefix) == MissedAfter(m, probes, prefix[1..]);
      FirstDropSkip(m, probes, prefix[1..], rest);
    } else {
      assert prefix + rest == rest;
    }
  }

  class UdpConnection {
    const role: Role
    const endPoint: Endpoint
    const probes: int
    /** Keep-alive interval of a client-role connection. */
    const interval: int
    var socket: DatagramSocket?
    var tagQueue: seq<int>
    var transactions: map<int, Handler>
    var tagNext: int
    var probesMissed: int
    /** `_thread != null` (client role). */
    var threadStarted: bool
    /** Cancellation has been requested (client role). */
    var cancelled: bool
    /** The events this connection has raised, and the handlers it has run. */
    var events: seq<ConnEvent>

    function TagPool(): Pool
      reads this
    {
      Pool(tagQueue, transactions, tagNext)
    }

    function State(): Link
      reads this
    {
      Link(TagPool(), probesMissed, events)
    }

    ghost predicate Valid()
      reads this
    {
      Tags.Valid(TagPool(), TagBase(role))
    }

    /** UdpConnectionClient: no socket until Start. */
    constructor Client(endPoint: Endpoint, probes: int, interval: int)
      ensures role.Client? && this.endPoint == endPoint && this.probes == probes && this.interval == interval
      ensures TagPool() == Seed(ClientTagBase) && Valid()
      ensures socket == null && probesMissed == 0 && !threadStarted && !cancelled && events == []
    {
      role := Role.Client;
      this.endPoint := endPoint;
      this.probes := probes;
      this.interval := interval;
      socket := null;
      transactions := map[];
      probesMissed := 0;
      threadStarted, cancelled, events := false, false, [];
      new;
      SeedTags();
      SeedValid(ClientTagBase);
    }

    /** UdpConnectionServer: shares the server's socket. */
    constructor Server(endPoint: Endpoint, shared: DatagramSocket?, probes: int)
      ensures role.Server? && this.endPoint == endPoint && this.probes == probes && socket == shared
      ensures TagPool() == Seed(ServerTagBase) && Valid()
      ensures probesMissed == 0 && !threadStarted && !cancelled && events == []
    {
      role := Role.Server;
      this.endPoint := endPoint;
      this.probes := probes;
      interval := 0;
      socket := shared;
      transactions := map[];
      probesMissed := 0;
      threadStarted, cancelled, events := false, false, [];
      new;
      SeedTags();
      SeedValid(ServerTagBase);
    }

    /** The base constructor's loop: queue ten consecutive tags from the
        role's base. */
    method SeedTags()
      modifies this`tagQueue, this`tagNext
      ensures tagQueue == Seed(TagBase(role)).queue && tagNext == Seed(TagBase(role)).next
    {
      var base := TagBase(role);
      tagNext := base;
      tagQueue := [];
      var i := 0;
      while i < SeedCount
        invariant 0 <= i <= SeedCount
        invariant tagNext == base + i
        invariant tagQueue == seq(i, k => base + k)
      {
        tagQueue := tagQueue + [tagNext];
        tagNext := tagNext + 1;
        i := i + 1;
      }
    }

    /** Client: request cancellation, forget the (joined) thread, release
        the socket; once disposed, disposing again changes nothing.  Server
        role: nothing (the socket belongs to the server). */
    method Dispose()
      modifies this`cancelled, this`threadStarted, this`socket, {socket}`disposed
      ensures role.Server? ==> unchanged(this) && (old(socket) != null ==> unchanged(old(socket)))
      ensures role.Client? ==> cancelled && !threadStarted && socket == null
      ensures role.Client? && old(socket) != null ==> old(socket).disposed
      ensures old(cancelled) && !old(threadStarted) && old(socket) == null ==> unchanged(this)
    {
      if role.Server? {
        return;
      }
      cancelled := true;
      threadStarted := false;
      if socket != null {
        socket.Dispose();
      }
      socket := null;
    }

    /** Client: refuse while a socket exists; otherwise create one (sends to
        the destinations in `unreachable` will raise, and `maxPayload` is the
        datagram limit of the peer address's family), send a ping, start the
        loop; if the ping raises, release and forget the socket.  Server
        role: nothing. */
    method Start(unreachable: set<Endpoint>, maxPayload: nat) returns (r: Outcome, ghost created: DatagramSocket?)
      modifies this`socket, this`threadStarted
      ensures role.Server? ==> r == Done && created == null && unchanged(this)
      ensures role.Client? && old(socket) != null ==> r == Fail(AlreadyConnected) && created == null && unchanged(this)
      ensures role.Client? && old(socket) == null ==>
                created != null && fresh(created) && created.unreachable == unreachable && created.maxPayload == maxPayload
                && r == (if endPoint in unreachable then Fail(SocketFault) else Done)
      ensures role.Client? && old(socket) == null && r.Done? ==>
                socket == created && threadStarted && created.sent == [(endPoint, [])] && !created.disposed
      ensures role.Client? && old(socket) == null && r.Fail? ==>
                socket == null && threadStarted == old(threadStarted) && created.sent == [] && created.disposed
    {
      created := null;
      if role.Server? {
        return Done, null;
      }
      if socket != null {
        return Fail(AlreadyConnected), null;
      }
      var s := new DatagramSocket(unreachable, maxPayload);
      created := s;
      socket := s;
      r := SendPing();
      if r.Fail? {
        s.Dispose();
        socket := null;
        return;
      }
      threadStarted := true;
    }

    /** SendPing: a zero-byte datagram to the peer. */
    method SendPing() returns (r: Outcome)
      modifies {socket}`sent
      ensures r == old(SendToOutcome(socket, endPoint, 0))
      ensures socket != null ==>
                socket.sent == old(socket.sent) + (if r.Done? then [(endPoint, [])] else [])
                && unchanged(socket`unreachable, socket`disposed)
    {
      if socket == null {
        return Fail(NullSocket);
      }
      r := socket.SendTo([], endPoint);
    }

    /** SendNotification: one datagram holding a frame with tag 0. */
    method SendNotification(notification: seq<byte>) returns (r: Outcome)
      requires |notification| <= Int32Max
      modifies {socket}`sent
      ensures r == old(SendToOutcome(socket, endPoint, HeaderSize + |notification|))
      ensures socket != null ==>
                socket.sent == old(socket.sent) + (if r.Done? then [(endPoint, EncodeFrame(NotificationTag, notification))] else [])
                && unchanged(socket`unreachable, socket`disposed)
    {
      var packet := Le32(|notification|) + Le32(NotificationTag) + notification;
      if socket == null {
        return Fail(NullSocket);
      }
      r := socket.SendTo(packet, endPoint);
    }

    /** SendTransaction: allocate a tag and record the handler, then send
        one datagram with that tag.  The tag stays pending if the send fails. */
    method SendTransaction(command: seq<byte>, handler: Handler) returns (tag: int, r: Outcome)
      requires Valid() && CanAllocate(TagPool()) && |command| <= Int32Max
      modifies this`tagQueue, this`transactions, this`tagNext, {socket}`sent
      ensures Valid()
      ensures tag == Allocate(old(TagPool()), handler).tag && TagPool() == Allocate(old(TagPool()), handler).pool
      ensures tag != NotificationTag && tag !in old(transactions) && transactions[tag] == handler
      ensures r == old(SendToOutcome(socket, endPoint, HeaderSize + |command|))
      ensures socket != null ==>
                Int32Min <= tag <= Int32Max
                && socket.sent == old(socket.sent) + (if r.Done? then [(endPoint, EncodeFrame(tag, command))] else [])
                && unchanged(socket`unreachable, socket`disposed)
    {
      AllocateValid(TagPool(), TagBase(role), handler);
      if |tagQueue| == 0 {
        tag := tagNext;
        tagNext := tagNext + 1;
      } else {
        tag := tagQueue[0];
        tagQueue := tagQueue[1..];
      }
      transactions := transactions[tag := handler];
      var packet := Le32(|command|) + Le32(tag) + command;
      if socket == null {
        return tag, Fail(NullSocket);
      }
      r := socket.SendTo(packet, endPoint);
    }

    /** SendResponse: one datagram echoing the peer's tag. */
    method SendResponse(tag: Int32, response: seq<byte>) returns (r: Outcome)
      requires |response| <= Int32Max
      modifies {socket}`sent
      ensures r == old(SendToOutcome(socket, endPoint, HeaderSize + |response|))
      ensures socket != null ==>
                socket.sent == old(socket.sent) + (if r.Done? then [(endPoint, EncodeFrame(tag, response))] else [])
                && unchanged(socket`unreachable, socket`disposed)
    {
      var packet := Le32(|response|) + Le32(tag) + response;
      if socket == null {
        return Fail(NullSocket);
      }
      r := socket.SendTo(packet, endPoint);
    }

    /** ProcessProbeTick: count one more missed probe; if the count before
        it was above `probes`, raise ConnectionDropped and report the drop,
        otherwise send a ping. */
    method ProcessProbeTick() returns (dropped: bool, r: Outcome)
      modifies this`probesMissed, this`events, {socket}`sent
      ensures probesMissed == Tick(old(probesMissed), probes).missed
      ensures dropped == Tick(old(probesMissed), probes).dropped
      ensures events == old(events) + if dropped then [ConnectionDropped] else []
      ensures r == if dropped then Done else old(SendToOutcome(socket, endPoint, 0))
      ensures socket != null ==>
                socket.sent == old(socket.sent) + (if !dropped && r.Done? then [(endPoint, [])] else [])
                && unchanged(socket`unreachable, socket`disposed)
    {
      dropped := probesMissed > probes;
      probesMissed := probesMissed + 1;
      if dropped {
        events := events + [ConnectionDropped];
        return true, Done;
      }
      r := SendPing();
    }

    /** The dispatch of one well-formed datagram. */
    method Dispatch(tag: Int32, message: seq<byte>)
      modifies this`tagQueue, this`transactions, this`events
      ensures TagPool() == Route(old(TagPool()), tag, message).pool
      ensures events == old(events) + [Route(old(TagPool()), tag, message).event]
    {
      if tag == NotificationTag {
        events := events + [Notification(message)];
        return;
      }
      var handler := Null;
      if tag in transactions {
        handler := transactions[tag];
        transactions := transactions - {tag};
        tagQueue := tagQueue + [tag];
      }
      if handler != Null {
        events := events + [Response(handler, message)];
        return;
      }
      events := events + [Transaction(tag, message)];
    }

    /** ProcessPacket: clear the missed-probe count, then check the length
        word against the datagram size and dispatch. */
    method ProcessPacket(packet: seq<byte>)
      requires |packet| <= ReceiveBufferSize
      modifies this`probesMissed, this`tagQueue, this`transactions, this`events
      ensures State() == AfterPacket(old(State()), packet)
      ensures old(Valid()) ==> Valid()
    {
      probesMissed := 0;
      if |packet| < HeaderSize {
        return;
      }
      var len := FromLe32(packet[..4]);
      if len != |packet| - HeaderSize {
        return;
      }
      var tag := FromLe32(packet[4..8]);
      var message := packet[HeaderSize..];
      if old(Valid()) {
        RouteValid(TagPool(), TagBase(role), tag, message);
      }
      Dispatch(tag, message);
    }

    /** One turn of the client loop. */
    method TakeTurn(ghost c: ClientConfig, turn: Turn, nextProbe: int) returns (r: TurnResult)
      requires socket != null && c == ClientConfig(probes, interval, SendToOutcome(socket, endPoint, 0))
      requires turn.arrival.Datagram? ==> |turn.arrival.packet| <= ReceiveBufferSize
      modifies this`probesMissed, this`tagQueue, this`transactions, this`events, socket`sent
      ensures r == ClientTurn(c, old(State()), nextProbe, turn) && State() == r.link
      ensures old(Valid()) ==> Valid()
      ensures unchanged(socket`unreachable, socket`disposed)
      ensures socket.sent == old(socket.sent) + if r.Continue? && r.pinged then [(endPoint, [])] else []
    {
      var next := nextProbe;
      if turn.now >= nextProbe {
        next := turn.now + interval;
        var dropped, o := ProcessProbeTick();
        if dropped {
          return Stop(State(), next, Dropped);
        }
        if o.Fail? {
          return Stop(State(), next, Crashed(o.failure));
        }
      }
      match turn.arrival {
        case Datagram(_, packet) => ProcessPacket(packet);
        case _ =>
      }
      return Continue(State(), next, turn.now >= nextProbe);
    }

    /** UdpConnectionClient.ProcessConnection over the given turns. */
    method ProcessConnection(turns: seq<Turn>) returns (exit: Exit)
      requires socket != null && Valid() && Receivable(turns)
      modifies this`probesMissed, this`tagQueue, this`transactions, this`events, socket`sent
      ensures Valid()
      ensures unchanged(socket`unreachable, socket`disposed)
      ensures old(cancelled) ==> exit == Cancelled && unchanged(this) && unchanged(socket)
      ensures !old(cancelled) ==>
                var run := RunClient(ClientConfig(probes, interval, old(SendToOutcome(socket, endPoint, 0))), old(State()), interval, turns);
                exit == run.exit && State() == run.link
                && socket.sent == old(socket.sent) + seq(run.pings, _ => (endPoint, []))
    {
      if cancelled {
        return Cancelled;
      }
      ghost var config := ClientConfig(probes, interval, SendToOutcome(socket, endPoint, 0));
      ghost var goal := RunClient(config, State(), interval, turns);
      var nextProbe := interval;
      var i := 0;
      ghost var pings: nat := 0;
      while i < |turns|
        invariant i <= |turns|
        invariant Valid()
        invariant unchanged(socket`unreachable, socket`disposed)
        invariant config == ClientConfig(probes, interval, SendToOutcome(socket, endPoint, 0))
        invariant var run := RunClient(config, State(), nextProbe, turns[i..]);
                  run.exit == goal.exit && run.link == goal.link && pings + run.pings == goal.pings
        invariant socket.sent == old(socket.sent) + seq(pings, _ => (endPoint, []))
      {
        assert turns[i..][0] == turns[i] && turns[i..][1..] == turns[i + 1..];
        var r := TakeTurn(config, turns[i], nextProbe);
        if r.Stop? {
          return r.exit;
        }
        if r.pinged {
          pings := pings + 1;
        }
        nextProbe := r.nextProbe;
        i := i + 1;
      }
      return Running;
    }
  }

  /** A transaction the peer opened: it must be answered exactly once. */
  class UdpTransaction {
    const connection: UdpConnection
    const tag: Int32
    const command: seq<byte>
    var sent: bool

    constructor (connection: UdpConnection, tag: Int32, command: seq<byte>)
      ensures this.connection == connection && this.tag == tag && this.command == command
      ensures !sent
    {
      this.connection := connection;
      this.tag := tag;
      this.command := command;
      sent := false;
    }

    /** The first call marks the transaction answered, then sends a datagram
        echoing the tag; the mark stays even if the send fails.  Any later
        call fails and sends nothing. */
    method SendResponse(response: seq<byte>) returns (r: Outcome)
      requires |response| <= Int32Max
      modifies this`sent, {connection.socket}`sent
      ensures sent
      ensures old(sent) ==>
                r == Fail(ResponseAlreadySent)
                && (connection.socket != null ==> connection.socket.sent == old(connection.socket.sent))
      ensures !old(sent) ==> r == old(SendToOutcome(connection.socket, connection.endPoint, HeaderSize + |response|))
      ensures !old(sent) && connection.socket != null ==>
                connection.socket.sent == old(connection.socket.sent)
                  + if r.Done? then [(connection.endPoint, EncodeFrame(tag, response))] else []
    {
      if sent {
        return Fail(ResponseAlreadySent);
      }
      sent := true;
      r := connection.SendResponse(tag, response);
    }
  }
}
