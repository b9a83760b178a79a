/** The stream server (TcpServer): a listener, the set of accepted
    connections, the events it re-publishes, and the broadcast. */
module TcpServing {
  import opened Wire
  import opened Tags
  import opened Sockets
  import opened Broadcast
  import opened Tcp

  /** The server's events, each carrying the connection it is about. */
  datatype ServerEvent =
    | NewConnection(connection: TcpConnection)
    | ConnectionLost(connection: TcpConnection)
    | NotificationFrom(connection: TcpConnection, message: seq<byte>)
    | TransactionFrom(connection: TcpConnection, tag: Int32, command: seq<byte>)

  /** What one poll of the listener finds: nothing within the timeout, or a
      client at `address` that will send `sends` and then close (`resets`:
      sending to it raises SocketException). */
  datatype Poll = Idle | Incoming(address: nat, sends: seq<byte>, resets: bool)

  /** The clients a sequence of polls accepts, in order. */
  function Accepted(polls: seq<Poll>): (peers: seq<Poll>)
    ensures |peers| <= |polls|
  {
    if polls == [] then []
    else if polls[|polls| - 1].Incoming? then Accepted(polls[..|polls| - 1]) + [polls[|polls| - 1]]
    else Accepted(polls[..|polls| - 1])
  }

  /** A poll is among the accepted clients if and only if it is incoming: every one of
      them is accepted, and nothing else is. */
  lemma {:induction false} AcceptedIffIncoming(polls: seq<Poll>)
    ensures forall k :: 0 <= k < |Accepted(polls)| ==> Accepted(polls)[k].Incoming?
    ensures forall p :: p in polls && p.Incoming? <==> p in Accepted(polls)
    decreases |polls|
  {
    if polls != [] {
      var init := polls[..|polls| - 1];
      AcceptedIffIncoming(init);
      assert polls == init + [polls[|polls| - 1]];
    }
  }

  /** The NewConnection events for a run of accepted connections. */
  function Announced(cs: seq<TcpConnection>): (es: seq<ServerEvent>)
    ensures |es| == |cs| && forall k :: 0 <= k < |cs| ==> es[k] == NewConnection(cs[k])
  {
    seq(|cs|, k requires 0 <= k < |cs| => NewConnection(cs[k]))
  }

  /** What a send on each connection's socket raises, in table order. */
  function Outcomes(cs: seq<TcpConnection>): (os: seq<Outcome>)
    reads set c | c in cs, set c | c in cs && c.socket != null :: c.socket
    ensures |os| == |cs| && forall i :: 0 <= i < |cs| ==> os[i] == SendOutcome(cs[i].socket)
  {
    seq(|cs|, i requires 0 <= i < |cs| reads cs, set c | c in cs && c.socket != null :: c.socket => SendOutcome(cs[i].socket))
  }

  /** A connection just made from an accepted client: server role, fresh
      tags, started, and wrapping a socket on which that client's bytes
      arrive and nothing has been sent yet. */
  ghost predicate Spawned(c: TcpConnection, peer: Poll)
    reads c, c.socket
  {
    c.role.Server? && peer.Incoming? && c.address == peer.address && c.threadStarted
    && c.TagPool() == Seed(ServerTagBase) && c.events == []
    && c.socket != null && c.socket.incoming == peer.sends && c.socket.broken == peer.resets
    && c.socket.sent == [] && !c.socket.disposed
  }

  /** Each connection of `cs` is a server-role connection for the client
      at the same index. */
  predicate MadeFrom(cs: seq<TcpConnection>, peers: seq<Poll>)
  {
    |cs| == |peers| && forall k :: 0 <= k < |cs| ==> cs[k].role.Server? && peers[k].Incoming? && cs[k].address == peers[k].address
  }

  /** One more accepted client extends each view of the accepted run by
      one. */
  lemma AcceptedOne(cs: seq<TcpConnection>, es: seq<ServerEvent>, subs: set<TcpConnection>,
                    added: seq<TcpConnection>, peers: seq<Poll>, c: TcpConnection, peer: Poll)
    requires MadeFrom(added, peers) && c.role.Server? && peer.Incoming? && c.address == peer.address
    ensures MadeFrom(added + [c], peers + [peer])
    ensures cs + added + [c] == cs + (added + [c])
    ensures es + Announced(added) + [NewConnection(c)] == es + Announced(added + [c])
    ensures subs + (set x | x in added) + {c} == subs + (set x | x in added + [c])
  {
    assert Announced(added + [c]) == Announced(added) + [NewConnection(c)];
  }

  class TcpServer {
    const port: nat
    var listener: ListenSocket?
    /** `_thread != null`. */
    var threadStarted: bool
    /** Cancellation has been requested. */
    var cancelled: bool
    /** `_connections`, in the order the HashSet enumerates them. */
    var connections: seq<TcpConnection>
    /** The connections whose three events this server's handlers are
        subscribed to. */
    var subscribed: set<TcpConnection>
    var events: seq<ServerEvent>

    /** The sockets of the members, which a broadcast sends on. */
    function Sockets(): set<StreamSocket?>
      reads this, set c | c in connections
    {
      set c | c in connections && c.socket != null :: c.socket
    }

    /** No connection is in the set twice, no two members share a socket,
        and only members are subscribed. */
    ghost predicate Valid()
      reads this, set c | c in connections
    {
      (forall i, j :: 0 <= i < j < |connections| ==> connections[i] != connections[j])
      && (forall i, j :: 0 <= i < |connections| && 0 <= j < |connections| && i != j && connections[i].socket != null ==>
            connections[i].socket != connections[j].socket)
      && forall c :: c in subscribed ==> c in connections
    }

    constructor (port: nat)
      ensures this.port == port && listener == null && !threadStarted && !cancelled
      ensures connections == [] && subscribed == {} && events == [] && Valid()
    {
      this.port := port;
      listener := null;
      threadStarted, cancelled := false, false;
      connections, subscribed, events := [], {}, [];
    }

    /** Dispose: request cancellation, forget the (joined) thread, release
        the listener.  The accepted connections are left as they are, and
        disposing again changes nothing. */
    method Dispose()
      modifies this`cancelled, this`threadStarted, this`listener, {listener}`disposed
      ensures cancelled && !threadStarted && listener == null
      ensures old(listener) != null ==> old(listener).disposed
      ensures connections == old(connections) && subscribed == old(subscribed) && events == old(events)
      ensures old(cancelled) && !old(threadStarted) && old(listener) == null ==> unchanged(this)
    {
      cancelled := true;
      threadStarted := false;
      if listener != null {
        listener.Dispose();
      }
      listener := null;
    }

    /** Start: refuse once the accept loop has started; otherwise create a
        listener, bind it (`binds`: the port is free) and start the loop.
        A failed bind leaves the new listener in place, neither disposed nor
        forgotten, and the loop not started. */
    method Start(binds: bool) returns (r: Outcome, ghost created: ListenSocket?)
      modifies this`listener, this`threadStarted
      ensures old(threadStarted) ==> r == Fail(AlreadyStarted) && created == null && unchanged(this)
      ensures !old(threadStarted) ==>
                created != null && fresh(created) && listener == created && !created.disposed
                && created.bound == binds && threadStarted == binds
                && r == if binds then Done else Fail(SocketFault)
    {
      created := null;
      if threadStarted {
        return Fail(AlreadyStarted), null;
      }
      var s := new ListenSocket();
      created := s;
      listener := s;
      r := s.Bind(binds);
      if r.Fail? {
        return;
      }
      threadStarted := true;
    }

    /** SendNotification: send the notification on every member of a
        snapshot of the set; a SocketException from one member is
        swallowed, any other exception ends the broadcast and is raised. */
    method SendNotification(notification: seq<byte>) returns (r: Outcome)
      requires Valid() && |notification| <= Int32Max
      modifies Sockets()`sent
      ensures r == Raised(old(Outcomes(connections)))
      ensures forall i :: 0 <= i < |connections| && connections[i].socket != null ==>
                connections[i].socket.sent == old(connections[i].socket.sent)
                  + if i < Reach(old(Outcomes(connections))) && old(Outcomes(connections))[i].Done?
                    then [EncodeFrame(NotificationTag, notification)] else []
    {
      var snapshot := connections;
      ghost var outcomes := Outcomes(snapshot);
      ghost var reach := Reach(outcomes);
      var i := 0;
      while i < |snapshot|
        invariant i <= reach
        invariant forall j :: i <= j < |snapshot| ==> SendOutcome(snapshot[j].socket) == outcomes[j]
        invariant forall j :: 0 <= j < |snapshot| && snapshot[j].socket != null ==>
                    snapshot[j].socket.sent == old(snapshot[j].socket.sent)
                      + if j < i && outcomes[j].Done? then [EncodeFrame(NotificationTag, notification)] else []
      {
        var o := snapshot[i].SendNotification(notification);
        assert o == outcomes[i];
        if Escapes(o) {
          assert Reach(outcomes) == i;
          return o;
        }
        i := i + 1;
      }
      return Done;
    }

    /** ProcessServer over a sequence of polls: each client accepted becomes
        a server-role connection, which is added to the set, subscribed to,
        announced with NewConnection and then started; the loop does
        nothing once cancellation has been requested. */
    method ProcessServer(polls: seq<Poll>)
      requires Valid()
      modifies this`connections, this`subscribed, this`events
      ensures Valid()
      ensures old(cancelled) ==> unchanged(this)
      ensures !old(cancelled) ==>
                var n := |old(connections)|;
                |connections| == n + |Accepted(polls)| && connections[..n] == old(connections)
                && subscribed == old(subscribed) + (set c | c in connections[n..])
                && events == old(events) + Announced(connections[n..])
                && MadeFrom(connections[n..], Accepted(polls))
    {
      if cancelled {
        return;
      }
      ghost var added := AcceptAll(polls);
      assert connections[|old(connections)|..] == added;
    }

    /** The body of the accept loop, run for every poll. */
    method AcceptAll(polls: seq<Poll>) returns (ghost added: seq<TcpConnection>)
      requires Valid()
      modifies this`connections, this`subscribed, this`events
      ensures Valid()
      ensures connections == old(connections) + added
      ensures subscribed == old(subscribed) + (set c | c in added)
      ensures events == old(events) + Announced(added)
      ensures MadeFrom(added, Accepted(polls))
    {
      var i := 0;
      ghost var peers := [];
      added := [];
      while i < |polls|
        invariant i <= |polls|
        invariant Valid()
        invariant peers == Accepted(polls[..i])
        invariant connections == old(connections) + added
        invariant subscribed == old(subscribed) + (set c | c in added)
        invariant events == old(events) + Announced(added)
        invariant MadeFrom(added, peers)
      {
        assert polls[..i + 1][..i] == polls[..i];
        if polls[i].Incoming? {
          assert Accepted(polls[..i + 1]) == peers + [polls[i]];
          var c := Accept(polls[i]);
          AcceptedOne(old(connections), old(events), old(subscribed), added, peers, c, polls[i]);
          added := added + [c];
          peers := peers + [polls[i]];
        } else {
          assert Accepted(polls[..i + 1]) == peers;
        }
        i := i + 1;
      }
      assert polls[..|polls|] == polls;
    }

    /** One accepted client: create the connection, add it, subscribe,
        announce it, start it. */
    method Accept(peer: Poll) returns (c: TcpConnection)
      requires Valid() && peer.Incoming?
      modifies this`connections, this`subscribed, this`events
      ensures Valid()
      ensures connections == old(connections) + [c]
      ensures subscribed == old(subscribed) + {c} && events == old(events) + [NewConnection(c)]
      ensures fresh(c) && fresh(c.socket) && Spawned(c, peer)
    {
      var socket := new StreamSocket(peer.sends, peer.resets);
      c := new TcpConnection.Server(peer.address, socket);
      connections := connections + [c];
      subscribed := subscribed + {c};
      events := events + [NewConnection(c)];
      var _, _ := c.Start([], false, true);
    }

    /** The three handlers the server subscribes to each connection, run
        when connection `c` raises `e`: a notification or an inbound
        transaction is re-published, a drop goes to OnConnectionDropped.  A
        connection no longer subscribed reaches none of them. */
    method Forward(c: TcpConnection, e: ConnEvent)
      modifies this`subscribed, this`events
      ensures c !in old(subscribed) || e.Response? ==> subscribed == old(subscribed) && events == old(events)
      ensures c in old(subscribed) && e.Notification? ==>
                subscribed == old(subscribed) && events == old(events) + [NotificationFrom(c, e.message)]
      ensures c in old(subscribed) && e.Transaction? ==>
                subscribed == old(subscribed) && events == old(events) + [TransactionFrom(c, e.tag, e.command)]
      ensures c in old(subscribed) && e.ConnectionDropped? ==>
                subscribed == old(subscribed) - {c} && events == old(events) + [ConnectionLost(c)]
    {
      if c !in subscribed {
        return;
      }
      match e {
        case Notification(message) => events := events + [NotificationFrom(c, message)];
        case Transaction(tag, command) => events := events + [TransactionFrom(c, tag, command)];
        case ConnectionDropped => OnConnectionDropped(c);
        case Response(_, _) =>
      }
    }

    /** OnConnectionDropped: unsubscribe the three handlers and re-publish
        the drop; the connection stays in the set. */
    method OnConnectionDropped(c: TcpConnection)
      modifies this`subscribed, this`events
      ensures subscribed == old(subscribed) - {c} && events == old(events) + [ConnectionLost(c)]
    {
      subscribed := subscribed - {c};
      events := events + [ConnectionLost(c)];
    }
  }
}
