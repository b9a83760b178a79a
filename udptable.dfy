/** What the datagram server's receive loop does to its table of
    connections, as a function of the clock readings and the datagrams it
    sees.  The table maps each remote endpoint to the state of its
    server-role connection; entries are created on the first datagram from
    an endpoint and never removed. */
module UdpTable {
  import opened Wire
  import opened Tags
  import opened KeepAlive
  import opened Sockets
  import opened Udp

  /** The server's events, each naming the endpoint of its connection. */
  datatype ServerEvent =
    | NewConnection(endPoint: Endpoint)
    | ConnectionLost(endPoint: Endpoint)
    | NotificationFrom(endPoint: Endpoint, message: seq<byte>)
    | TransactionFrom(endPoint: Endpoint, tag: Int32, command: seq<byte>)

  /** The server seen through its loop: the endpoints in the order their
      entries were made, each entry's connection state, the endpoints whose
      events the server is subscribed to, the server's events, and the
      datagrams sent on the shared socket. */
  datatype Hub = Hub(
    order: seq<Endpoint>,
    links: map<Endpoint, Link>,
    subscribed: set<Endpoint>,
    events: seq<ServerEvent>,
    sent: seq<(Endpoint, seq<byte>)>)

  /** The fixed parameters of a run: the keep-alive settings and the state
      of the shared socket, which decides what a ping raises. */
  datatype Net = Net(probes: int, interval: int, disposed: bool, unreachable: set<Endpoint>)

  /** Why the loop stopped short of the turns given. */
  datatype Halt = Serving | Halted(failure: Failure)

  function PingOutcome(net: Net, ep: Endpoint): Outcome
  {
    if net.disposed then Fail(SocketDisposed)
    else if ep in net.unreachable then Fail(SocketFault)
    else Done
  }

  /** The endpoints that NewConnection was published for, in order. */
  function Announced(events: seq<ServerEvent>): seq<Endpoint>
    decreases |events|
  {
    if events == [] then []
    else
      var last := events[|events| - 1];
      Announced(events[..|events| - 1]) + if last.NewConnection? then [last.endPoint] else []
  }

  lemma AnnouncedSnoc(events: seq<ServerEvent>, e: ServerEvent)
    ensures Announced(events + [e]) == Announced(events) + if e.NewConnection? then [e.endPoint] else []
  {
    assert (events + [e])[..|events|] == events;
  }

  /** The table is consistent: each endpoint has one entry, in insertion
      order; only entries are subscribed; and NewConnection was published
      exactly for the entries, once each, in the order they were made. */
  ghost predicate Tidy(h: Hub)
  {
    (forall i, j :: 0 <= i < j < |h.order| ==> h.order[i] != h.order[j])
    && (forall ep :: ep in h.links <==> ep in h.order)
    && (forall ep :: ep in h.subscribed ==> ep in h.links)
    && Announced(h.events) == h.order
  }

  /** The server's three handlers, run when the connection of `ep` raises
      `e`: a notification or inbound transaction is re-published, a drop
      unsubscribes them and is re-published; an endpoint no longer
      subscribed reaches none of them. */
  function Forward(h: Hub, ep: Endpoint, e: ConnEvent): (g: Hub)
    ensures g.order == h.order && g.links == h.links && g.sent == h.sent
    ensures ep !in h.subscribed || e.Response? ==> g == h
    ensures g.subscribed == if ep in h.subscribed && e.ConnectionDropped? then h.subscribed - {ep} else h.subscribed
    ensures ep in h.subscribed && e.Notification? ==> g.events == h.events + [NotificationFrom(ep, e.message)]
    ensures ep in h.subscribed && e.Transaction? ==> g.events == h.events + [TransactionFrom(ep, e.tag, e.command)]
    ensures ep in h.subscribed && e.ConnectionDropped? ==> g.events == h.events + [ConnectionLost(ep)]
  {
    if ep !in h.subscribed then h
    else match e
      case Notification(message) => h.(events := h.events + [NotificationFrom(ep, message)])
      case Transaction(tag, command) => h.(events := h.events + [TransactionFrom(ep, tag, command)])
      case ConnectionDropped => h.(subscribed := h.subscribed - {ep}, events := h.events + [ConnectionLost(ep)])
      case Response(_, _) => h
  }

  /** The entry for a first datagram from `ep`: a new server-role
      connection, appended, subscribed to and announced. */
  function Admit(h: Hub, ep: Endpoint): (g: Hub)
    ensures ep in g.links
    ensures ep in h.links ==> g == h
    ensures ep !in h.links ==>
              g.order == h.order + [ep] && g.links == h.links[ep := Link(Seed(ServerTagBase), 0, [])]
              && g.subscribed == h.subscribed + {ep} && g.events == h.events + [NewConnection(ep)] && g.sent == h.sent
  {
    if ep in h.links then h
    else Hub(h.order + [ep], h.links[ep := Link(Seed(ServerTagBase), 0, [])], h.subscribed + {ep},
             h.events + [NewConnection(ep)], h.sent)
  }

  /** The entry of `ep` processes a datagram, and the event it raises, if
      it dispatched one, reaches the handlers. */
  function Handle(h: Hub, ep: Endpoint, packet: seq<byte>): (g: Hub)
    requires ep in h.links && |packet| <= ReceiveBufferSize
    ensures g.links == h.links[ep := AfterPacket(h.links[ep], packet)]
    ensures g.order == h.order && g.sent == h.sent
  {
    var link := AfterPacket(h.links[ep], packet);
    var b := h.(links := h.links[ep := link]);
    if ParsePacket(packet).Message? then Forward(b, ep, link.events[|link.events| - 1]) else b
  }

  /** A datagram from `ep`: find or make its entry, then handle it there. */
  function Deliver(h: Hub, ep: Endpoint, packet: seq<byte>): (g: Hub)
    requires |packet| <= ReceiveBufferSize
    ensures g.links.Keys == h.links.Keys + {ep} && g.sent == h.sent
  {
    Handle(Admit(h, ep), ep, packet)
  }

  datatype Ticked = Ticked(hub: Hub, halt: Halt)

  /** ProcessProbeTick on the entry of `ep`. */
  function TickOne(net: Net, h: Hub, ep: Endpoint): (r: Ticked)
    ensures r.hub.sent == h.sent || r.hub.sent == h.sent + [(ep, [])]
    ensures r.halt.Halted? ==> ep in h.links && PingOutcome(net, ep) == Fail(r.halt.failure) && r.hub.sent == h.sent
  {
    if ep !in h.links then Ticked(h, Serving)
    else
      var l := h.links[ep];
      var t := Tick(l.missed, net.probes);
      if t.dropped then
        Ticked(Forward(h.(links := h.links[ep := Link(l.pool, t.missed, l.events + [ConnectionDropped])]), ep, ConnectionDropped), Serving)
      else
        var b := h.(links := h.links[ep := l.(missed := t.missed)]);
        match PingOutcome(net, ep)
        case Done => Ticked(b.(sent := b.sent + [(ep, [])]), Serving)
        case Fail(f) => Ticked(b, Halted(f))
  }

  /** Tick the entries of `eps` in order; an exception from a ping ends
      the loop. */
  function TickEach(net: Net, h: Hub, eps: seq<Endpoint>): (r: Ticked)
    ensures |h.sent| <= |r.hub.sent| <= |h.sent| + |eps| && r.hub.sent[..|h.sent|] == h.sent
    decreases |eps|
  {
    if eps == [] then Ticked(h, Serving)
    else
      var p := TickEach(net, h, eps[..|eps| - 1]);
      if p.halt.Halted? then p else TickOne(net, p.hub, eps[|eps| - 1])
  }

  /** Ticking one more entry after a prefix that did not halt. */
  lemma TickEachSnoc(net: Net, h: Hub, eps: seq<Endpoint>, i: nat)
    requires i < |eps| && TickEach(net, h, eps[..i]).halt.Serving?
    ensures TickEach(net, h, eps[..i + 1]) == TickOne(net, TickEach(net, h, eps[..i]).hub, eps[i])
  {
    assert eps[..i + 1][..i] == eps[..i];
  }

  predicate Receivable(arrival: Arrival)
  {
    arrival.Datagram? ==> |arrival.packet| <= ReceiveBufferSize
  }

  datatype ServerRun = ServerRun(hub: Hub, nextProbe: int, halt: Halt)

  /** One turn of ProcessServer: when the clock reaches the deadline, the
      next deadline is `now + interval` and every entry is ticked once;
      then, unless a poll timed out or ReceiveFrom raised, the datagram is
      delivered. */
  function ServerTurn(net: Net, h: Hub, nextProbe: int, turn: Turn): (r: ServerRun)
    requires Receivable(turn.arrival)
    ensures r.nextProbe == if turn.now >= nextProbe then turn.now + net.interval else nextProbe
    ensures turn.now < nextProbe && !turn.arrival.Datagram? ==> r == ServerRun(h, nextProbe, Serving)
  {
    var due := turn.now >= nextProbe;
    var next := if due then turn.now + net.interval else nextProbe;
    var t := if due then TickEach(net, h, h.order) else Ticked(h, Serving);
    if t.halt.Halted? then ServerRun(t.hub, next, t.halt)
    else if turn.arrival.Datagram? then ServerRun(Deliver(t.hub, turn.arrival.from, turn.arrival.packet), next, Serving)
    else ServerRun(t.hub, next, Serving)
  }

  predicate AllReceivable(turns: seq<Turn>)
  {
    forall i :: 0 <= i < |turns| ==> Receivable(turns[i].arrival)
  }

  /** ProcessServer over a sequence of turns, from the deadline `nextProbe`. */
  function RunServer(net: Net, h: Hub, nextProbe: int, turns: seq<Turn>): (r: ServerRun)
    requires AllReceivable(turns)
    decreases |turns|
  {
    if turns == [] then ServerRun(h, nextProbe, Serving)
    else
      var p := RunServer(net, h, nextProbe, turns[..|turns| - 1]);
      if p.halt.Halted? then p else ServerTurn(net, p.hub, p.nextProbe, turns[|turns| - 1])
  }

  /** A ping that raises ends the tick: the entries after it are not
      ticked. */
  lemma {:induction false} TickHaltIsFinal(net: Net, h: Hub, eps: seq<Endpoint>, k: nat)
    requires k <= |eps| && TickEach(net, h, eps[..k]).halt.Halted?
    ensures TickEach(net, h, eps) == TickEach(net, h, eps[..k])
    decreases |eps|
  {
    if k < |eps| {
      var prefix := eps[..|eps| - 1];
      assert prefix[..k] == eps[..k];
      TickHaltIsFinal(net, h, prefix, k);
    } else {
      assert eps[..k] == eps;
    }
  }

  /** A halt ends the loop: the turns after it are never taken. */
  lemma {:induction false} HaltIsFinal(net: Net, h: Hub, nextProbe: int, turns: seq<Turn>, k: nat)
    requires AllReceivable(turns) && k <= |turns|
    requires RunServer(net, h, nextProbe, turns[..k]).halt.Halted?
    ensures RunServer(net, h, nextProbe, turns) == RunServer(net, h, nextProbe, turns[..k])
    decreases |turns|
  {
    if k < |turns| {
      var prefix := turns[..|turns| - 1];
      assert prefix[..k] == turns[..k];
      HaltIsFinal(net, h, nextProbe, prefix, k);
    } else {
      assert turns[..k] == turns;
    }
  }

  // ---------------------------------------------------------------------
  // The table stays consistent: one entry and one NewConnection per
  // endpoint, entries never removed.

  /** `g` extends `h`: every entry kept, in the same order, every event kept. */
  ghost predicate Grows(h: Hub, g: Hub)
  {
    |h.order| <= |g.order| && g.order[..|h.order|] == h.order
    && (forall ep :: ep in h.links ==> ep in g.links)
    && |h.events| <= |g.events| && g.events[..|h.events|] == h.events
  }

  lemma GrowsTrans(a: Hub, b: Hub, c: Hub)
    requires Grows(a, b) && Grows(b, c)
    ensures Grows(a, c)
  {
    assert c.order[..|a.order|] == c.order[..|b.order|][..|a.order|];
    assert c.events[..|a.events|] == c.events[..|b.events|][..|a.events|];
  }

  lemma ForwardTidy(h: Hub, ep: Endpoint, e: ConnEvent)
    requires Tidy(h)
    ensures Tidy(Forward(h, ep, e)) && Grows(h, Forward(h, ep, e))
  {
    var g := Forward(h, ep, e);
    if ep in h.subscribed && !e.Response? {
      assert g.events == h.events + [g.events[|h.events|]];
      AnnouncedSnoc(h.events, g.events[|h.events|]);
    }
  }

  lemma AdmitTidy(h: Hub, ep: Endpoint)
    requires Tidy(h)
    ensures Tidy(Admit(h, ep)) && Grows(h, Admit(h, ep)) && ep in Admit(h, ep).links
  {
    if ep !in h.links {
      AnnouncedSnoc(h.events, NewConnection(ep));
      var g := Admit(h, ep);
      forall i, j | 0 <= i < j < |g.order|
        ensures g.order[i] != g.order[j]
      {
        if j == |h.order| {
          assert g.order[i] == h.order[i];
        }
      }
    }
  }

  /** A new state for an existing entry keeps the table consistent. */
  lemma RelinkTidy(h: Hub, ep: Endpoint, l: Link)
    requires Tidy(h) && ep in h.links
    ensures Tidy(h.(links := h.links[ep := l])) && Grows(h, h.(links := h.links[ep := l]))
    ensures h.links[ep := l].Keys == h.links.Keys
  {
    var g := h.(links := h.links[ep := l]);
    assert g.order[..|h.order|] == h.order;
    assert g.events[..|h.events|] == h.events;
  }

  lemma DeliverTidy(h: Hub, ep: Endpoint, packet: seq<byte>)
    requires Tidy(h) && |packet| <= ReceiveBufferSize
    ensures Tidy(Deliver(h, ep, packet)) && Grows(h, Deliver(h, ep, packet))
  {
    AdmitTidy(h, ep);
    var a := Admit(h, ep);
    var link := AfterPacket(a.links[ep], packet);
    var b := a.(links := a.links[ep := link]);
    RelinkTidy(a, ep, link);
    GrowsTrans(h, a, b);
    if ParsePacket(packet).Message? {
      var e := link.events[|link.events| - 1];
      assert Deliver(h, ep, packet) == Forward(b, ep, e);
      ForwardTidy(b, ep, e);
      GrowsTrans(h, b, Forward(b, ep, e));
    } else {
      assert Deliver(h, ep, packet) == b;
    }
  }

  lemma TickOneTidy(net: Net, h: Hub, ep: Endpoint)
    requires Tidy(h)
    ensures Tidy(TickOne(net, h, ep).hub) && Grows(h, TickOne(net, h, ep).hub)
    ensures TickOne(net, h, ep).hub.order == h.order && TickOne(net, h, ep).hub.links.Keys == h.links.Keys
  {
    var g := TickOne(net, h, ep).hub;
    if ep !in h.links {
      assert g == h;
      assert h.order[..|h.order|] == h.order && h.events[..|h.events|] == h.events;
    } else {
      var l := h.links[ep];
      var t := Tick(l.missed, net.probes);
      if t.dropped {
        var b := h.(links := h.links[ep := Link(l.pool, t.missed, l.events + [ConnectionDropped])]);
        assert g == Forward(b, ep, ConnectionDropped);
        RelinkTidy(h, ep, b.links[ep]);
        ForwardTidy(b, ep, ConnectionDropped);
        GrowsTrans(h, b, g);
      } else {
        var b := h.(links := h.links[ep := l.(missed := t.missed)]);
        RelinkTidy(h, ep, b.links[ep]);
        if PingOutcome(net, ep).Done? {
          assert g == b.(sent := b.sent + [(ep, [])]);
        } else {
          assert g == b;
        }
      }
    }
  }

  lemma {:induction false} TickEachTidy(net: Net, h: Hub, eps: seq<Endpoint>)
    requires Tidy(h)
    ensures Tidy(TickEach(net, h, eps).hub) && Grows(h, TickEach(net, h, eps).hub)
    ensures TickEach(net, h, eps).hub.order == h.order && TickEach(net, h, eps).hub.links.Keys == h.links.Keys
    decreases |eps|
  {
    if eps != [] {
      TickEachTidy(net, h, eps[..|eps| - 1]);
      var p := TickEach(net, h, eps[..|eps| - 1]);
      if p.halt.Serving? {
        TickOneTidy(net, p.hub, eps[|eps| - 1]);
        GrowsTrans(h, p.hub, TickOne(net, p.hub, eps[|eps| - 1]).hub);
      }
    }
  }

  lemma ServerTurnTidy(net: Net, h: Hub, nextProbe: int, turn: Turn)
    requires Tidy(h) && Receivable(turn.arrival)
    ensures Tidy(ServerTurn(net, h, nextProbe, turn).hub) && Grows(h, ServerTurn(net, h, nextProbe, turn).hub)
  {
    var due := turn.now >= nextProbe;
    var t := if due then TickEach(net, h, h.order) else Ticked(h, Serving);
    var g := ServerTurn(net, h, nextProbe, turn).hub;
    if due {
      TickEachTidy(net, h, h.order);
    } else {
      assert h.order[..|h.order|] == h.order && h.events[..|h.events|] == h.events;
    }
    if t.halt.Serving? && turn.arrival.Datagram? {
      assert g == Deliver(t.hub, turn.arrival.from, turn.arrival.packet);
      DeliverTidy(t.hub, turn.arrival.from, turn.arrival.packet);
      GrowsTrans(h, t.hub, g);
    } else {
      assert g == t.hub;
    }
  }

  /** However the loop runs, NewConnection has been published exactly once
      for each entry of the table, in the order the entries were made, and
      no entry or event is ever removed. */
  lemma {:induction false} EachEndpointAnnouncedOnce(net: Net, h: Hub, nextProbe: int, turns: seq<Turn>)
    requires Tidy(h) && AllReceivable(turns)
    ensures var g := RunServer(net, h, nextProbe, turns).hub;
      Tidy(g) && Grows(h, g)
    decreases |turns|
  {
    if turns != [] {
      var prefix := turns[..|turns| - 1];
      assert AllReceivable(prefix) by {
        forall i | 0 <= i < |prefix|
          ensures Receivable(prefix[i].arrival)
        {
          assert prefix[i] == turns[i];
        }
      }
      EachEndpointAnnouncedOnce(net, h, nextProbe, prefix);
      var p := RunServer(net, h, nextProbe, prefix);
      if p.halt.Serving? {
        ServerTurnTidy(net, p.hub, p.nextProbe, turns[|turns| - 1]);
        GrowsTrans(h, p.hub, ServerTurn(net, p.hub, p.nextProbe, turns[|turns| - 1]).hub);
      }
    }
  }

  // ---------------------------------------------------------------------
  // A probe tick ticks every entry exactly once.

  /** Ticking the distinct entries `eps` without a failed ping counts one
      more missed probe on each of them and leaves every other entry as it
      was. */
  /** A tick that does not halt counts one more missed probe on its own
      entry and leaves every other entry as it was. */
  lemma TickOneEffect(net: Net, h: Hub, ep: Endpoint)
    requires ep in h.links && TickOne(net, h, ep).halt.Serving?
    ensures var g := TickOne(net, h, ep).hub;
      g.links.Keys == h.links.Keys
      && g.links[ep].missed == h.links[ep].missed + 1 && g.links[ep].pool == h.links[ep].pool
      && forall k :: k in h.links && k != ep ==> g.links[k] == h.links[k]
  {
  }

  lemma {:induction false} TickEachCountsOnce(net: Net, h: Hub, eps: seq<Endpoint>)
    requires forall i, j :: 0 <= i < j < |eps| ==> eps[i] != eps[j]
    requires forall i :: 0 <= i < |eps| ==> eps[i] in h.links
    requires TickEach(net, h, eps).halt.Serving?
    ensures var g := TickEach(net, h, eps).hub;
      g.links.Keys == h.links.Keys
      && (forall ep :: ep in eps ==> g.links[ep].missed == h.links[ep].missed + 1 && g.links[ep].pool == h.links[ep].pool)
      && (forall ep :: ep in h.links && ep !in eps ==> g.links[ep] == h.links[ep])
    decreases |eps|
  {
    if eps != [] {
      var init := eps[..|eps| - 1];
      var last := eps[|eps| - 1];
      assert forall i :: 0 <= i < |init| ==> init[i] == eps[i];
      var p := TickEach(net, h, init);
      assert p.halt.Serving?;
      TickEachCountsOnce(net, h, init);
      TickOneEffect(net, p.hub, last);
      assert last !in init by {
        forall i | 0 <= i < |init|
          ensures init[i] != last
        {
          assert init[i] == eps[i];
        }
      }
      forall ep | ep in eps
        ensures ep in init || ep == last
      {
        var i :| 0 <= i < |eps| && eps[i] == ep;
        if i < |eps| - 1 {
          assert init[i] == ep;
        }
      }
    }
  }

  /** A due tick ticks every entry of a consistent table exactly once. */
  lemma TickAllCountsOnce(net: Net, h: Hub)
    requires Tidy(h) && TickEach(net, h, h.order).halt.Serving?
    ensures var g := TickEach(net, h, h.order).hub;
      g.links.Keys == h.links.Keys
      && forall ep :: ep in h.links ==> g.links[ep].missed == h.links[ep].missed + 1
  {
    TickEachCountsOnce(net, h, h.order);
  }

  // ---------------------------------------------------------------------
  // A dropped connection stays in the table but is never heard from again.

  /** Nothing in `events` from position `from` on is about `ep`. */
  predicate SilentFrom(events: seq<ServerEvent>, from: nat, ep: Endpoint)
  {
    forall k :: from <= k < |events| ==> events[k].endPoint != ep
  }

  lemma TickOneSilent(net: Net, h: Hub, x: Endpoint, ep: Endpoint)
    requires ep in h.links && ep !in h.subscribed
    ensures var g := TickOne(net, h, x).hub;
      ep in g.links && ep !in g.subscribed && |h.events| <= |g.events| && g.events[..|h.events|] == h.events
      && SilentFrom(g.events, |h.events|, ep)
  {
  }

  lemma {:induction false} TickEachSilent(net: Net, h: Hub, eps: seq<Endpoint>, ep: Endpoint)
    requires ep in h.links && ep !in h.subscribed
    ensures var g := TickEach(net, h, eps).hub;
      ep in g.links && ep !in g.subscribed && |h.events| <= |g.events| && g.events[..|h.events|] == h.events
      && SilentFrom(g.events, |h.events|, ep)
    decreases |eps|
  {
    if eps != [] {
      TickEachSilent(net, h, eps[..|eps| - 1], ep);
      var p := TickEach(net, h, eps[..|eps| - 1]);
      if p.halt.Serving? {
        TickOneSilent(net, p.hub, eps[|eps| - 1], ep);
        var g := TickOne(net, p.hub, eps[|eps| - 1]).hub;
        assert g.events[..|h.events|] == g.events[..|p.hub.events|][..|h.events|];
      }
    }
  }

  lemma DeliverSilent(h: Hub, x: Endpoint, packet: seq<byte>, ep: Endpoint)
    requires |packet| <= ReceiveBufferSize && ep in h.links && ep !in h.subscribed
    ensures var g := Deliver(h, x, packet);
      ep in g.links && ep !in g.subscribed && |h.events| <= |g.events| && g.events[..|h.events|] == h.events
      && SilentFrom(g.events, |h.events|, ep)
  {
  }

  lemma ServerTurnSilent(net: Net, h: Hub, nextProbe: int, turn: Turn, ep: Endpoint)
    requires Receivable(turn.arrival) && ep in h.links && ep !in h.subscribed
    ensures var g := ServerTurn(net, h, nextProbe, turn).hub;
      ep in g.links && ep !in g.subscribed && |h.events| <= |g.events| && g.events[..|h.events|] == h.events
      && SilentFrom(g.events, |h.events|, ep)
  {
    var due := turn.now >= nextProbe;
    var t := if due then TickEach(net, h, h.order) else Ticked(h, Serving);
    if due {
      TickEachSilent(net, h, h.order, ep);
    }
    if t.halt.Serving? && turn.arrival.Datagram? {
      DeliverSilent(t.hub, turn.arrival.from, turn.arrival.packet, ep);
      var g := Deliver(t.hub, turn.arrival.from, turn.arrival.packet);
      assert g.events[..|h.events|] == g.events[..|t.hub.events|][..|h.events|];
    }
  }

  /** Once the server has unsubscribed from an endpoint's connection (its
      drop was reported), the entry stays in the table, however many
      datagrams later arrive from that endpoint, yet no later server event
      is about it: no second NewConnection, no notification, no
      transaction, no second drop. */
  lemma {:induction false} DroppedEndpointStaysSilent(net: Net, h: Hub, nextProbe: int, turns: seq<Turn>, ep: Endpoint)
    requires AllReceivable(turns) && ep in h.links && ep !in h.subscribed
    ensures var g := RunServer(net, h, nextProbe, turns).hub;
      ep in g.links && ep !in g.subscribed && |h.events| <= |g.events| && g.events[..|h.events|] == h.events
      && SilentFrom(g.events, |h.events|, ep)
    decreases |turns|
  {
    if turns != [] {
      var prefix := turns[..|turns| - 1];
      assert AllReceivable(prefix) by {
        forall i | 0 <= i < |prefix|
          ensures Receivable(prefix[i].arrival)
        {
          assert prefix[i] == turns[i];
        }
      }
      DroppedEndpointStaysSilent(net, h, nextProbe, prefix, ep);
      var p := RunServer(net, h, nextProbe, prefix);
      if p.halt.Serving? {
        ServerTurnSilent(net, p.hub, p.nextProbe, turns[|turns| - 1], ep);
        var g := ServerTurn(net, p.hub, p.nextProbe, turns[|turns| - 1]).hub;
        assert g.events[..|h.events|] == g.events[..|p.hub.events|][..|h.events|];
      }
    }
  }

  /** A connection that was dropped keeps being ticked: with no datagram
      from its peer its count stays above `probes`, so every later tick
      raises ConnectionDropped on it again, which the server, no longer
      subscribed, does not hear. */
  lemma DroppedEntryDropsAgain(net: Net, h: Hub, ep: Endpoint)
    requires ep in h.links && h.links[ep].missed > net.probes && ep !in h.subscribed
    ensures var r := TickOne(net, h, ep);
      r.halt.Serving? && r.hub.events == h.events && r.hub.sent == h.sent
      && r.hub.links[ep].events == h.links[ep].events + [ConnectionDropped]
      && r.hub.links[ep].missed > net.probes
  {
  }
}
