/** The per-connection transaction-tag pool shared by the stream and the
    datagram connection: a FIFO queue of recycled tags, a counter that
    supplies new ones, and the map from outstanding tags to the caller's
    response handler.  Also the three-way dispatch of an inbound frame. */
module Tags {
  import opened Wire

  /** A caller's response continuation (`Action<byte[]>`), by identity;
      SendTransaction accepts a null one. */
  datatype Handler = Null | Callback(id: nat)

  /** Which side created the connection; it decides the tag base. */
  datatype Role = Client | Server

  const ClientTagBase: Int32 := 0x1000_0000
  const ServerTagBase: Int32 := 0x2000_0000

  /** Number of tags queued by the constructor. */
  const SeedCount: nat := 10

  function TagBase(role: Role): (base: Int32)
    ensures base > 0
  {
    match role
    case Client => ClientTagBase
    case Server => ServerTagBase
  }

  /** `_tagQueue`, `_transactions` and `_tagNext`. */
  datatype Pool = Pool(queue: seq<int>, pending: map<int, Handler>, next: int)

  /** The pool after the constructor: the ten tags `base .. base + 9` in
      order, nothing pending, and `base + 10` as the next new tag. */
  function Seed(base: Int32): (p: Pool)
    requires base <= Int32Max - SeedCount
    ensures |p.queue| == SeedCount && p.pending == map[] && p.next == base + SeedCount
    ensures forall i :: 0 <= i < |p.queue| ==> p.queue[i] == base + i
  {
    Pool(seq(SeedCount, i => base + i), map[], base + SeedCount)
  }

  /** Every issued tag lies in `base .. next - 1` and is either queued or
      pending, never both; queued tags are distinct. */
  ghost predicate Valid(p: Pool, base: int)
  {
    && 0 < base <= p.next <= Int32Max
    && (forall i, j :: 0 <= i < j < |p.queue| ==> p.queue[i] != p.queue[j])
    && (forall t :: t in p.queue ==> base <= t < p.next && t !in p.pending)
    && (forall t :: t in p.pending ==> base <= t < p.next)
    && (forall t :: base <= t < p.next ==> t in p.queue || t in p.pending)
  }

  lemma {:induction false} SeedValid(base: Int32)
    requires 0 < base <= Int32Max - SeedCount
    ensures Valid(Seed(base), base)
  {
    var p := Seed(base);
    forall t | base <= t < p.next
      ensures t in p.queue
    {
      assert p.queue[t - base] == t;
    }
  }

  /** The first ten client tags and the first ten server tags differ. */
  lemma SeedRangesDisjoint()
    ensures forall t :: t in Seed(ClientTagBase).queue ==> t !in Seed(ServerTagBase).queue
  {
    var c := Seed(ClientTagBase);
    var s := Seed(ServerTagBase);
    forall t | t in c.queue
      ensures t !in s.queue
    {
      var i :| 0 <= i < |c.queue| && c.queue[i] == t;
      assert t < ServerTagBase;
    }
  }

  // ---------------------------------------------------------------------
  // Allocation (SendTransaction)

  datatype Allocation = Allocation(tag: int, pool: Pool)

  /** The step after `_tagNext` in C#'s unchecked `int` arithmetic. */
  function Successor(n: Int32): Int32
  {
    if n == Int32Max then Int32Min else n + 1
  }

  /** SendTransaction's locked region: take the oldest queued tag or, when
      the queue is empty, `_tagNext` (then advance it), and record the
      handler under that tag. */
  function Allocate(p: Pool, h: Handler): (a: Allocation)
    requires Int32Min <= p.next <= Int32Max
    ensures a.tag in p.queue || a.tag == p.next
    ensures a.pool.pending == p.pending[a.tag := h]
  {
    if |p.queue| == 0 then Allocation(p.next, Pool([], p.pending[p.next := h], Successor(p.next)))
    else Allocation(p.queue[0], Pool(p.queue[1..], p.pending[p.queue[0] := h], p.next))
  }

  /** The counter cannot wrap while its range is not used up. */
  predicate CanAllocate(p: Pool)
  {
    |p.queue| > 0 || p.next < Int32Max
  }

  /** Allocation hands out a tag that was not outstanding, nonzero, the
      oldest queued one if any, records the handler under it, and keeps the
      pool valid. */
  lemma AllocateValid(p: Pool, base: int, h: Handler)
    requires Valid(p, base) && CanAllocate(p)
    ensures var a := Allocate(p, h);
      && a.tag !in p.pending && a.tag != NotificationTag
      && (|p.queue| > 0 ==> a.tag == p.queue[0] && a.pool.queue == p.queue[1..] && a.pool.next == p.next)
      && (|p.queue| == 0 ==> a.tag == p.next && a.pool.next == p.next + 1)
      && a.pool.pending == p.pending[a.tag := h]
      && Valid(a.pool, base)
  {
    var a := Allocate(p, h);
    if |p.queue| > 0 {
      assert p.queue[0] in p.queue;
      forall t | t in a.pool.queue
        ensures base <= t < a.pool.next && t !in a.pool.pending
      {
        var k :| 0 <= k < |a.pool.queue| && a.pool.queue[k] == t;
        assert p.queue[k + 1] == t;
        assert t in p.queue;
      }
    }
  }

  /** While the queue is empty every tag below the counter is pending, so
      the counter can only reach int32 max with 2^31 - 1 - base outstanding
      transactions. */
  lemma EmptyQueueAllPending(p: Pool, base: int)
    requires Valid(p, base) && |p.queue| == 0
    ensures forall t :: base <= t < p.next ==> t in p.pending
  {
  }

  // ---------------------------------------------------------------------
  // Dispatch of an inbound frame (ProcessConnection / ProcessPacket)

  /** What the connection does with an inbound frame. */
  datatype ConnEvent =
    | Notification(message: seq<byte>)           // Notification event raised
    | Response(handler: Handler, message: seq<byte>)  // a pending handler invoked
    | Transaction(tag: Int32, command: seq<byte>)   // Transaction event raised with a new transaction
    | ConnectionDropped                            // ConnectionDropped event raised

  datatype Routed = Routed(pool: Pool, event: ConnEvent)

  /** Tag 0 is a notification; a pending tag is the response to one of our
      requests: its entry goes, the tag is queued at the back and its handler
      runs, or, when the handler registered was null, the frame falls through
      to the last case; any other tag opens a transaction from the peer. */
  function Route(p: Pool, tag: Int32, message: seq<byte>): (r: Routed)
    ensures !r.event.ConnectionDropped?
    ensures r.event.Notification? <==> tag == NotificationTag
    ensures r.event.Response? <==> tag != NotificationTag && tag in p.pending && p.pending[tag].Callback?
    ensures r.event.Transaction? ==> r.event.tag == tag && r.event.command == message
    ensures !r.event.Transaction? ==> r.event.message == message
    ensures r.event.Response? ==> r.event.handler == p.pending[tag]
    ensures r.pool.next == p.next
    ensures if tag != NotificationTag && tag in p.pending
            then r.pool.pending == p.pending - {tag} && r.pool.queue == p.queue + [tag]
            else r.pool == p
  {
    if tag == NotificationTag then Routed(p, Notification(message))
    else if tag in p.pending then
      var recycled := Pool(p.queue + [tag], p.pending - {tag}, p.next);
      if p.pending[tag].Callback? then Routed(recycled, Response(p.pending[tag], message))
      else Routed(recycled, Transaction(tag, message))
    else Routed(p, Transaction(tag, message))
  }

  lemma RouteValid(p: Pool, base: int, tag: Int32, message: seq<byte>)
    requires Valid(p, base)
    ensures Valid(Route(p, tag, message).pool, base)
  {
    var r := Route(p, tag, message);
    if tag != NotificationTag && tag in p.pending {
      var q := r.pool.queue;
      forall i, j | 0 <= i < j < |q|
        ensures q[i] != q[j]
      {
        if j == |q| - 1 {
          assert p.queue[i] in p.queue;
        }
      }
    }
  }

  /** A response frees its tag for reuse: it is queued behind every tag
      freed before it, and is handed out again once those are. */
  lemma ResponseRecyclesTag(p: Pool, base: int, tag: Int32, message: seq<byte>, h: Handler)
    requires Valid(p, base) && tag != NotificationTag && tag in p.pending
    ensures var r := Route(p, tag, message);
      && tag !in r.pool.pending
      && Allocate(Pool([], r.pool.pending, r.pool.next), h).tag != tag
      && (p.queue == [] ==> Allocate(r.pool, h).tag == tag)
  {
    var r := Route(p, tag, message);
    assert base <= tag < p.next;
  }

  // ---------------------------------------------------------------------
  // Arbitrary interleavings of allocations and inbound frames

  datatype PoolOp = Send(handler: Handler) | Receive(tag: Int32, message: seq<byte>)

  function Apply(p: Pool, op: PoolOp): (q: Pool)
    requires Int32Min <= p.next <= Int32Max
    ensures q.next == p.next || q.next == Successor(p.next)
  {
    match op
    case Send(h) => Allocate(p, h).pool
    case Receive(tag, m) => Route(p, tag, m).pool
  }

  function ApplyAll(p: Pool, ops: seq<PoolOp>): Pool
    requires Int32Min <= p.next <= Int32Max
    decreases |ops|
  {
    if ops == [] then p
    else
      var q := Apply(p, ops[0]);
      if Int32Min <= q.next <= Int32Max then ApplyAll(q, ops[1..]) else q
  }

  /** Over any sequence of sends and inbound frames, as long as the counter
      does not wrap, no tag is both queued and pending, queued tags stay
      distinct and every issued tag stays accounted for. */
  lemma {:induction false} ApplyAllValid(p: Pool, base: int, ops: seq<PoolOp>)
    requires Valid(p, base) && p.next + |ops| <= Int32Max
    ensures Valid(ApplyAll(p, ops), base)
    ensures ApplyAll(p, ops).next <= p.next + |ops|
    decreases |ops|
  {
    if ops != [] {
      var q := Apply(p, ops[0]);
      match ops[0] {
        case Send(h) => AllocateValid(p, base, h);
        case Receive(tag, m) => RouteValid(p, base, tag, m);
      }
      ApplyAllValid(q, base, ops[1..]);
    }
  }
}
