/** The datagram server (UdpServer): one socket shared by every
    connection, a table from remote endpoint to connection filled on the
    first datagram from each endpoint, a central probe tick, and the
    broadcast. */
module UdpServing {
  import opened Wire
  import opened Tags
  import opened Sockets
  import opened Broadcast
  import opened Udp
  import opened UdpTable
  import opened KeepAlive

  /** The datagrams a broadcast of `frame` puts on the shared socket: one
      for each of the first `n` endpoints whose send did not raise. */
  function Sends(eps: seq<Endpoint>, outcomes: seq<Outcome>, frame: seq<byte>, n: nat): (s: seq<(Endpoint, seq<byte>)>)
    requires n <= |eps| && n <= |outcomes|
    ensures |s| <= n
    decreases n
  {
    if n == 0 then []
    else Sends(eps, outcomes, frame, n - 1) + if outcomes[n - 1].Done? then [(eps[n - 1], frame)] else []
  }

  /** A broadcast sends only the notification's frame, and only to
      endpoints of the snapshot it has reached. */
  lemma {:induction false} SendsOnlyFrame(eps: seq<Endpoint>, outcomes: seq<Outcome>, frame: seq<byte>, n: nat)
    requires n <= |eps| && n <= |outcomes|
    ensures forall k :: 0 <= k < |Sends(eps, outcomes, frame, n)| ==>
              Sends(eps, outcomes, frame, n)[k].1 == frame && Sends(eps, outcomes, frame, n)[k].0 in eps[..n]
    decreases n
  {
    if n > 0 {
      SendsOnlyFrame(eps, outcomes, frame, n - 1);
      assert eps[..n - 1] <= eps[..n];
    }
  }

  /** With every destination reachable, a broadcast sends the frame to
      every endpoint of the snapshot, in table order. */
  lemma {:induction false} SendsAll(eps: seq<Endpoint>, outcomes: seq<Outcome>, frame: seq<byte>, n: nat)
    requires n <= |eps| && n <= |outcomes|
    requires forall i :: 0 <= i < n ==> outcomes[i].Done?
    ensures Sends(eps, outcomes, frame, n) == seq(n, k requires 0 <= k < n => (eps[k], frame))
    decreases n
  {
    if n > 0 {
      SendsAll(eps, outcomes, frame, n - 1);
    }
  }

  /** Nothing is sent when every send up to `n` raised. */
  lemma {:induction false} SendsNoneDone(eps: seq<Endpoint>, outcomes: seq<Outcome>, frame: seq<byte>, n: nat)
    requires n <= |eps| && n <= |outcomes|
    requires forall i :: 0 <= i < n ==> outcomes[i].Fail?
    ensures Sends(eps, outcomes, frame, n) == []
    decreases n
  {
    if n > 0 {
      SendsNoneDone(eps, outcomes, frame, n - 1);
    }
  }

  /** A notification whose frame exceeds the socket's datagram limit
      reaches no endpoint, yet the broadcast returns normally: every send
      raises SocketException and each is swallowed. */
  lemma OversizedBroadcastSendsNothing(shared: DatagramSocket, eps: seq<Endpoint>, size: nat, frame: seq<byte>)
    requires !shared.disposed && size > shared.maxPayload
    ensures var os := Outcomes(shared, eps, size);
      Raised(os) == Done && Reach(os) == |eps| && Sends(eps, os, frame, Reach(os)) == []
  {
    var os := Outcomes(shared, eps, size);
    SocketFaultsDoNotStop(os);
    SendsNoneDone(eps, os, frame, |eps|);
  }

  /** What a send of `size` bytes to each endpoint on the shared socket
      raises, in order. */
  function Outcomes(shared: DatagramSocket, eps: seq<Endpoint>, size: nat): (os: seq<Outcome>)
    reads shared
    ensures |os| == |eps| && forall i :: 0 <= i < |eps| ==> os[i] == SendToOutcome(shared, eps[i], size)
  {
    seq(|eps|, i requires 0 <= i < |eps| reads shared => SendToOutcome(shared, eps[i], size))
  }

  class UdpServer {
    const port: nat
    const probes: int
    const interval: int
    var socket: DatagramSocket?
    /** `_thread != null`. */
    var threadStarted: bool
    /** Cancellation has been requested. */
    var cancelled: bool
    /** `_connections`. */
    var table: map<Endpoint, UdpConnection>
    /** The endpoints of `table` in the order their entries were made, the
        order in which the table's values are enumerated. */
    var order: seq<Endpoint>
    /** The endpoints whose connections' events this server's handlers are
        subscribed to. */
    var subscribed: set<Endpoint>
    var events: seq<ServerEvent>

    /** Each entry's connection state, as its connection holds it. */
    ghost var links: map<Endpoint, Link>

    /** `links` mirrors the connections of the table. */
    ghost predicate Linked()
      reads this`table, this`links, table.Values
    {
      table.Keys == links.Keys && forall ep :: ep in table ==> table[ep].State() == links[ep]
    }

    ghost function View(): Hub
      reads this`order, this`links, this`subscribed, this`events, this`socket, socket
    {
      Hub(order, links, subscribed, events, if socket == null then [] else socket.sent)
    }

    /** The keep-alive settings and the state of the socket. */
    function NetOf(): Net
      reads this`socket, socket
      requires socket != null
    {
      Net(probes, interval, socket.disposed, socket.unreachable)
    }

    /** Every entry is a server-role connection for its own endpoint, and
        the entries are exactly the endpoints of `order`. */
    ghost predicate Valid()
      reads this`table, this`order
    {
      (forall ep :: ep in table <==> ep in order)
      && forall ep :: ep in table ==> table[ep].endPoint == ep && table[ep].role.Server? && table[ep].probes == probes
    }

    /** Every entry sends on the server's current socket. */
    ghost predicate Shares()
      reads this`table, this`socket, table.Values`socket
    {
      forall ep :: ep in table ==> table[ep].socket == socket
    }

    constructor (port: nat, probes: int, interval: int)
      ensures this.port == port && this.probes == probes && this.interval == interval
      ensures socket == null && !threadStarted && !cancelled
      ensures table == map[] && order == [] && subscribed == {} && events == []
      ensures Valid() && Shares() && Linked() && Tidy(View())
    {
      this.port := port;
      this.probes := probes;
      this.interval := interval;
      socket := null;
      threadStarted, cancelled := false, false;
      table, order, subscribed, events := map[], [], {}, [];
      links := map[];
    }

    /** Dispose: request cancellation, forget the (joined) thread, release
        the socket.  The table is left as it is, and disposing again
        changes nothing. */
    method Dispose()
      modifies this`cancelled, this`threadStarted, this`socket, {socket}`disposed
      ensures cancelled && !threadStarted && socket == null
      ensures old(socket) != null ==> old(socket).disposed
      ensures table == old(table) && order == old(order) && subscribed == old(subscribed) && events == old(events)
      ensures old(cancelled) && !old(threadStarted) && old(socket) == null ==> unchanged(this)
    {
      cancelled := true;
      threadStarted := false;
      if socket != null {
        socket.Dispose();
      }
      socket := null;
    }

    /** Start: refuse once the loop has started; otherwise create the
        socket (sends to `unreachable` will raise, and `maxPayload` is the
        datagram limit of its address family), bind it (`binds`: the port is
        free) and start the loop.  A failed bind leaves the new
        socket in place, neither disposed nor forgotten. */
    method Start(unreachable: set<Endpoint>, maxPayload: nat, binds: bool) returns (r: Outcome, ghost created: DatagramSocket?)
      modifies this`socket, this`threadStarted
      ensures old(threadStarted) ==> r == Fail(AlreadyStarted) && created == null && unchanged(this)
      ensures !old(threadStarted) ==>
                created != null && fresh(created) && socket == created && !created.disposed
                && created.unreachable == unreachable && created.maxPayload == maxPayload && created.sent == []
                && threadStarted == binds && r == if binds then Done else Fail(SocketFault)
    {
      created := null;
      if threadStarted {
        return Fail(AlreadyStarted), null;
      }
      var s := new DatagramSocket(unreachable, maxPayload);
      created := s;
      socket := s;
      if !binds {
        return Fail(SocketFault), created;
      }
      threadStarted := true;
      r := Done;
    }

    /** SendNotification: send the notification to every entry of a
        snapshot of the table, in table order; a SocketException from one
        entry is swallowed, any other exception ends the broadcast and is
        raised. */
    method SendNotification(notification: seq<byte>, ghost shared: DatagramSocket) returns (r: Outcome)
      requires Valid() && |notification| <= Int32Max
      requires forall ep :: ep in table ==> table[ep].socket == shared
      modifies shared`sent
      ensures unchanged(shared`disposed, shared`unreachable)
      ensures var outcomes := old(Outcomes(shared, order, HeaderSize + |notification|));
        r == Raised(outcomes)
        && shared.sent == old(shared.sent) + Sends(order, outcomes, EncodeFrame(NotificationTag, notification), Reach(outcomes))
    {
      var snapshot := order;
      ghost var outcomes := Outcomes(shared, order, HeaderSize + |notification|);
      ghost var frame := EncodeFrame(NotificationTag, notification);
      var i := 0;
      while i < |snapshot|
        invariant i <= Reach(outcomes)
        invariant unchanged(shared`disposed, shared`unreachable)
        invariant shared.sent == old(shared.sent) + Sends(snapshot, outcomes, frame, i)
      {
        var c := table[snapshot[i]];
        assert c.socket == shared && c.endPoint == snapshot[i];
        var o := c.SendNotification(notification);
        assert o == outcomes[i];
        if Escapes(o) {
          assert Reach(outcomes) == i;
          return o;
        }
        assert Sends(snapshot, outcomes, frame, i + 1) == Sends(snapshot, outcomes, frame, i) + if o.Done? then [(snapshot[i], frame)] else [];
        i := i + 1;
      }
      return Done;
    }

    /** The three handlers subscribed to the connection of `ep`, run when
        it raises `e`. */
    method Forward(ep: Endpoint, e: ConnEvent)
      requires Valid() && Shares() && Linked()
      modifies this`subscribed, this`events
      ensures Valid() && Shares() && Linked()
      ensures View() == UdpTable.Forward(old(View()), ep, e)
    {
      if ep !in subscribed {
        return;
      }
      match e {
        case Notification(message) => events := events + [NotificationFrom(ep, message)];
        case Transaction(tag, command) => events := events + [TransactionFrom(ep, tag, command)];
        case ConnectionDropped => OnConnectionDropped(ep);
        case Response(_, _) =>
      }
    }

    /** OnConnectionDropped: unsubscribe and re-publish the drop; the entry
        stays in the table. */
    method OnConnectionDropped(ep: Endpoint)
      modifies this`subscribed, this`events
      ensures subscribed == old(subscribed) - {ep} && events == old(events) + [ConnectionLost(ep)]
    {
      subscribed := subscribed - {ep};
      events := events + [ConnectionLost(ep)];
    }

    /** The handling of one datagram from `from`: look the endpoint up, and
        on a miss create, store, subscribe to and announce a connection for
        it; then that connection processes the datagram, and the event it
        raises, if any, reaches the server's handlers. */
    method Receive(from: Endpoint, packet: seq<byte>)
      requires Valid() && Shares() && Linked() && |packet| <= ReceiveBufferSize
      modifies this`table, this`order, this`subscribed, this`events, this`links
      modifies table.Values`probesMissed, table.Values`tagQueue, table.Values`transactions, table.Values`events
      ensures Valid() && Shares() && Linked()
      ensures fresh(table.Values - old(table.Values))
      ensures View() == Deliver(old(View()), from, packet)
    {
      ghost var h := View();
      Find(from);
      ghost var a, t := View(), table;
      assert a == Admit(h, from);
      HandleEntry(from, packet);
      assert table == t;
      assert View() == UdpTable.Handle(a, from, packet);
    }

    /** The entry of `from` processes the datagram, and the event it
        raises, if any, reaches the server's handlers. */
    method HandleEntry(from: Endpoint, packet: seq<byte>)
      requires Valid() && Shares() && Linked() && from in table && |packet| <= ReceiveBufferSize
      modifies this`subscribed, this`events, this`links
      modifies {table[from]}`probesMissed, {table[from]}`tagQueue, {table[from]}`transactions, {table[from]}`events
      ensures Valid() && Shares() && Linked()
      ensures View() == UdpTable.Handle(old(View()), from, packet)
    {
      ghost var h := View();
      ghost var link := AfterPacket(h.links[from], packet);
      ghost var b := h.(links := h.links[from := link]);
      var raised, e := Process(from, packet);
      assert View() == b;
      if raised {
        Forward(from, e);
        assert UdpTable.Handle(h, from, packet) == UdpTable.Forward(b, from, e);
      } else {
        assert UdpTable.Handle(h, from, packet) == b;
      }
    }

    /** The connection of `from` processes the datagram; `raised` says
        whether it raised an event, `e`. */
    method Process(from: Endpoint, packet: seq<byte>) returns (raised: bool, e: ConnEvent)
      requires Valid() && Shares() && Linked() && from in table && |packet| <= ReceiveBufferSize
      modifies this`links
      modifies {table[from]}`probesMissed, {table[from]}`tagQueue, {table[from]}`transactions, {table[from]}`events
      ensures Valid() && Shares() && Linked()
      ensures var link := AfterPacket(old(links)[from], packet);
        links == old(links)[from := link]
        && raised == ParsePacket(packet).Message?
        && (raised ==> e == link.events[|link.events| - 1])
    {
      var c := table[from];
      var before := |c.events|;
      c.ProcessPacket(packet);
      links := links[from := c.State()];
      forall ep | ep in table
        ensures table[ep].State() == links[ep]
      {
        if ep != from {
          assert table[ep].endPoint != c.endPoint;
        }
      }
      raised := |c.events| > before;
      e := if raised then c.events[|c.events| - 1] else ConnectionDropped;
    }

    /** The table lookup of the receive step: on a miss a connection for
        `from` is created on the shared socket, stored, subscribed to and
        announced. */
    method Find(from: Endpoint)
      requires Valid() && Shares() && Linked()
      modifies this`table, this`order, this`subscribed, this`events, this`links
      ensures Valid() && Shares() && Linked() && from in table
      ensures View() == Admit(old(View()), from)
      ensures fresh(table.Values - old(table.Values))
      ensures from in old(table) ==> table == old(table)
      ensures from !in old(table) ==> table == old(table)[from := table[from]] && fresh(table[from])
    {
      if from in table {
        return;
      }
      var made := new UdpConnection.Server(from, socket, probes);
      forall ep | ep in table
        ensures table[ep].State() == links[ep] && table[ep].socket == socket
      {
        assert table[ep] != made;
      }
      table := table[from := made];
      links := links[from := made.State()];
      order := order + [from];
      subscribed := subscribed + {from};
      events := events + [NewConnection(from)];
    }

    /** ProcessProbeTick on the entry of `ep`, whose drop, if it reports
        one, reaches the server's handlers. */
    method TickEntry(ep: Endpoint) returns (halt: Halt)
      requires Valid() && Shares() && Linked() && socket != null && ep in table
      modifies this`subscribed, this`events, this`links, {table[ep]}`probesMissed, {table[ep]}`events, socket`sent
      ensures Valid() && Shares() && Linked()
      ensures unchanged(socket`disposed, socket`unreachable)
      ensures var r := TickOne(NetOf(), old(View()), ep); View() == r.hub && halt == r.halt
    {
      ghost var h, net := View(), NetOf();
      ghost var l := links[ep];
      ghost var t := Tick(l.missed, probes);
      var dropped, r := Probe(ep);
      if dropped {
        ghost var b := h.(links := h.links[ep := Link(l.pool, t.missed, l.events + [ConnectionDropped])]);
        assert View() == b;
        Forward(ep, ConnectionDropped);
        assert TickOne(net, h, ep) == Ticked(UdpTable.Forward(b, ep, ConnectionDropped), Serving);
        return Serving;
      }
      ghost var b := h.(links := h.links[ep := l.(missed := t.missed)]);
      assert TickOne(net, h, ep).halt == if r.Fail? then Halted(r.failure) else Serving;
      assert View() == TickOne(net, h, ep).hub by {
        if r.Done? {
          assert View() == b.(sent := b.sent + [(ep, [])]);
        } else {
          assert View() == b;
        }
      }
      return if r.Fail? then Halted(r.failure) else Serving;
    }

    /** ProcessProbeTick on the connection of `ep`. */
    method Probe(ep: Endpoint) returns (dropped: bool, r: Outcome)
      requires Valid() && Shares() && Linked() && socket != null && ep in table
      modifies this`links, {table[ep]}`probesMissed, {table[ep]}`events, socket`sent
      ensures Valid() && Shares() && Linked()
      ensures unchanged(socket`disposed, socket`unreachable)
      ensures var l := old(links)[ep]; var t := Tick(l.missed, probes);
        dropped == t.dropped
        && (dropped ==> links == old(links)[ep := Link(l.pool, t.missed, l.events + [ConnectionDropped])]
                        && socket.sent == old(socket.sent))
        && (!dropped ==> r == PingOutcome(NetOf(), ep) && links == old(links)[ep := l.(missed := t.missed)]
                         && socket.sent == old(socket.sent) + if r.Done? then [(ep, [])] else [])
    {
      var c := table[ep];
      ghost var l := c.State();
      dropped, r := c.ProcessProbeTick();
      assert c.TagPool() == l.pool;
      assert !dropped ==> c.events == l.events;
      links := links[ep := c.State()];
      forall k | k in table
        ensures table[k].State() == links[k]
      {
        if k != ep {
          assert table[k].endPoint != c.endPoint;
        }
      }
    }

    /** The probe tick of the loop: tick every entry once, in table order. */
    method TickAll() returns (halt: Halt)
      requires Valid() && Shares() && Linked() && socket != null
      modifies this`subscribed, this`events, this`links, table.Values`probesMissed, table.Values`events, socket`sent
      ensures Valid() && Shares() && Linked()
      ensures unchanged(socket`disposed, socket`unreachable)
      ensures var r := TickEach(NetOf(), old(View()), order); View() == r.hub && halt == r.halt
    {
      ghost var net := NetOf();
      ghost var h := View();
      var i := 0;
      while i < |order|
        invariant i <= |order|
        invariant Valid() && Shares() && Linked()
        invariant unchanged(socket`disposed, socket`unreachable)
        invariant View() == TickEach(net, h, order[..i]).hub && TickEach(net, h, order[..i]).halt.Serving?
      {
        TickEachSnoc(net, h, order, i);
        halt := TickEntry(order[i]);
        if halt.Halted? {
          TickHaltIsFinal(net, h, order, i + 1);
          return;
        }
        i := i + 1;
      }
      assert order[..i] == order;
      return Serving;
    }

    /** One turn of ProcessServer. */
    method ServeTurn(turn: Turn, nextProbe: int) returns (next: int, halt: Halt)
      requires Valid() && Shares() && Linked() && socket != null && UdpTable.Receivable(turn.arrival)
      modifies this`table, this`order, this`subscribed, this`events, this`links, socket`sent
      modifies table.Values`probesMissed, table.Values`tagQueue, table.Values`transactions, table.Values`events
      ensures Valid() && Shares() && Linked() && socket == old(socket)
      ensures unchanged(socket`disposed, socket`unreachable)
      ensures fresh(table.Values - old(table.Values))
      ensures ServerTurn(NetOf(), old(View()), nextProbe, turn) == ServerRun(View(), next, halt)
    {
      ghost var h, net := View(), NetOf();
      ghost var t := Ticked(h, Serving);
      next := nextProbe;
      if turn.now >= nextProbe {
        next := turn.now + interval;
        halt := TickAll();
        t := TickEach(net, h, h.order);
        if halt.Halted? {
          assert ServerTurn(net, h, nextProbe, turn) == ServerRun(t.hub, next, halt);
          return;
        }
      }
      assert View() == t.hub && t.halt.Serving?;
      match turn.arrival {
        case Datagram(from, packet) =>
          Receive(from, packet);
          assert ServerTurn(net, h, nextProbe, turn) == ServerRun(Deliver(t.hub, from, packet), next, Serving);
        case _ =>
          assert ServerTurn(net, h, nextProbe, turn) == ServerRun(t.hub, next, Serving);
      }
      halt := Serving;
    }

    /** ProcessServer over a sequence of turns; the first tick is due one
        interval after the loop starts, and the loop does nothing once
        cancellation has been requested. */
    method ProcessServer(turns: seq<Turn>) returns (halt: Halt)
      requires Valid() && Shares() && Linked() && socket != null && AllReceivable(turns)
      modifies this`table, this`order, this`subscribed, this`events, this`links, socket`sent
      modifies table.Values`probesMissed, table.Values`tagQueue, table.Values`transactions, table.Values`events
      ensures Valid() && Shares() && Linked()
      ensures old(cancelled) ==> halt == Serving && View() == old(View())
      ensures !old(cancelled) ==>
                var r := RunServer(NetOf(), old(View()), interval, turns);
                View() == r.hub && halt == r.halt
    {
      if cancelled {
        return Serving;
      }
      var nextProbe := interval;
      var i := 0;
      halt := Serving;
      while i < |turns|
        invariant i <= |turns|
        invariant Valid() && Shares() && Linked() && socket == old(socket)
        invariant unchanged(socket`disposed, socket`unreachable)
        invariant AllReceivable(turns[..i])
        invariant fresh(table.Values - old(table.Values))
        invariant halt == Serving
        invariant RunServer(NetOf(), old(View()), interval, turns[..i]) == ServerRun(View(), nextProbe, Serving)
      {
        assert turns[..i + 1][..i] == turns[..i];
        nextProbe, halt := ServeTurn(turns[i], nextProbe);
        if halt.Halted? {
          HaltIsFinal(NetOf(), old(View()), interval, turns, i + 1);
          return;
        }
        i := i + 1;
      }
      assert turns[..i] == turns;
    }
  }
}
