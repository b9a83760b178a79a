/** The operating system's sockets, as far as the connections use them.
    A stream socket's future input is the sequence of bytes the peer sends
    before it closes; receiving consumes it.  Sending appends to a log.
    Faults the network can cause are fields a scenario sets. */
module Sockets {
  import opened Wire

  /** An IP address and port. */
  datatype Endpoint = Endpoint(address: nat, port: nat)

  /** The exceptions that matter to the callers. */
  datatype Failure =
    | NullSocket          // NullReferenceException: no socket yet, or after Dispose
    | SocketDisposed      // ObjectDisposedException
    | SocketFault         // SocketException
    | AlreadyStarted      // InvalidOperationException("Already started")
    | AlreadyConnected    // InvalidOperationException("Already connected")
    | ResponseAlreadySent // InvalidOperationException("Response already sent")

  datatype Outcome = Done | Fail(failure: Failure)

  /** What a Send on the connection's `Socket` property raises, if anything. */
  function SendOutcome(s: StreamSocket?): Outcome
    reads s
  {
    if s == null then Fail(NullSocket)
    else if s.disposed then Fail(SocketDisposed)
    else if s.broken then Fail(SocketFault)
    else Done
  }

  /** What a SendTo of `size` bytes on the connection's `Socket` property
      raises, if anything: a datagram over the socket's limit, like one to
      an unreachable destination, raises SocketException. */
  function SendToOutcome(s: DatagramSocket?, to: Endpoint, size: nat): Outcome
    reads s
  {
    if s == null then Fail(NullSocket)
    else if s.disposed then Fail(SocketDisposed)
    else if to in s.unreachable || size > s.maxPayload then Fail(SocketFault)
    else Done
  }

  class StreamSocket {
    /** Bytes the peer has sent and we have not received; the peer closes after them. */
    var incoming: seq<byte>
    /** Everything sent on this socket, one entry per Send call. */
    var sent: seq<seq<byte>>
    /** Sending raises SocketException (the peer reset the connection). */
    var broken: bool
    var disposed: bool

    constructor (incoming: seq<byte>, broken: bool)
      ensures this.incoming == incoming && this.broken == broken
      ensures sent == [] && !disposed
    {
      this.incoming := incoming;
      this.broken := broken;
      sent := [];
      disposed := false;
    }

    /** Socket.Receive: delivers between one and `size` of the pending bytes
        (how many is up to the network), or 0 once the peer has closed. */
    method Receive(buffer: array<byte>, offset: nat, size: nat) returns (nr: nat)
      requires offset + size <= buffer.Length
      modifies this`incoming, buffer
      ensures nr <= size && nr <= |old(incoming)|
      ensures nr == 0 ==> size == 0 || old(incoming) == []
      ensures incoming == old(incoming)[nr..]
      ensures forall k :: 0 <= k < nr ==> buffer[offset + k] == old(incoming)[k]
      ensures forall k :: 0 <= k < buffer.Length && !(offset <= k < offset + nr) ==> buffer[k] == old(buffer[k])
    {
      if size == 0 || incoming == [] {
        nr := 0;
      } else {
        assert 1 <= size && 1 <= |incoming|;
        nr :| 1 <= nr <= size && nr <= |incoming|;
        var chunk := incoming[..nr];
        forall k | 0 <= k < nr {
          buffer[offset + k] := chunk[k];
        }
        incoming := incoming[nr..];
      }
    }

    /** Socket.Send of a whole frame. */
    method Send(data: seq<byte>) returns (r: Outcome)
      modifies this`sent
      ensures r == SendOutcome(this)
      ensures sent == old(sent) + (if r.Done? then [data] else [])
    {
      if disposed {
        r := Fail(SocketDisposed);
      } else if broken {
        r := Fail(SocketFault);
      } else {
        sent := sent + [data];
        r := Done;
      }
    }

    method Dispose()
      modifies this`disposed
      ensures disposed
    {
      disposed := true;
    }
  }

  class DatagramSocket {
    /** The largest datagram payload the socket's address family carries:
        65507 bytes over IPv4, 65527 over IPv6. */
    const maxPayload: nat
    /** Every datagram sent, with its destination. */
    var sent: seq<(Endpoint, seq<byte>)>
    /** Destinations to which SendTo raises SocketException. */
    var unreachable: set<Endpoint>
    var disposed: bool

    constructor (unreachable: set<Endpoint>, maxPayload: nat)
      ensures this.unreachable == unreachable && this.maxPayload == maxPayload && sent == [] && !disposed
    {
      this.unreachable := unreachable;
      this.maxPayload := maxPayload;
      sent := [];
      disposed := false;
    }

    /** Socket.SendTo. */
    method SendTo(data: seq<byte>, to: Endpoint) returns (r: Outcome)
      modifies this`sent
      ensures r == SendToOutcome(this, to, |data|)
      ensures sent == old(sent) + (if r.Done? then [(to, data)] else [])
    {
      if disposed {
        r := Fail(SocketDisposed);
      } else if to in unreachable || |data| > maxPayload {
        r := Fail(SocketFault);
      } else {
        sent := sent + [(to, data)];
        r := Done;
      }
    }

    method Dispose()
      modifies this`disposed
      ensures disposed
    {
      disposed := true;
    }
  }

  /** A listening socket (the servers' `_socket`).  Whether Bind succeeds
      (the port may be taken) is up to the system. */
  class ListenSocket {
    var bound: bool
    var disposed: bool

    constructor ()
      ensures !bound && !disposed
    {
      bound := false;
      disposed := false;
    }

    /** Socket.Bind (and, for a stream socket, Listen). */
    method Bind(succeeds: bool) returns (r: Outcome)
      modifies this`bound
      ensures bound == (old(bound) || succeeds)
      ensures r == if succeeds then Done else Fail(SocketFault)
    {
      if succeeds {
        bound := true;
        return Done;
      }
      return Fail(SocketFault);
    }

    method Dispose()
      modifies this`disposed
      ensures disposed
    {
      disposed := true;
    }
  }
}
