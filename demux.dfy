/** What a stream connection's receive loop does with everything the peer
    sends before it closes: frames are read and dispatched in order until the
    first one that cannot be read, and then the connection is dropped. */
module Demux {
  import opened Wire
  import opened Tags

  datatype StreamRun = StreamRun(pool: Pool, events: seq<ConnEvent>)

  /** The receive loop over a stream that ends after `input`. */
  function RunStream(p: Pool, input: seq<byte>): (r: StreamRun)
    ensures r.pool.next == p.next
    ensures |r.events| >= 1 && r.events[|r.events| - 1] == ConnectionDropped
    ensures forall i :: 0 <= i < |r.events| - 1 ==> !r.events[i].ConnectionDropped?
    decreases |input|
  {
    match ReadFrame(input)
    case Frame(tag, payload, rest) =>
      var s := Route(p, tag, payload);
      var r := RunStream(s.pool, rest);
      StreamRun(r.pool, [s.event] + r.events)
    case _ => StreamRun(p, [ConnectionDropped])
  }

  /** Dispatch keeps the tag pool valid however the stream is cut. */
  lemma {:induction false} RunStreamValid(p: Pool, base: int, input: seq<byte>)
    requires Valid(p, base)
    ensures Valid(RunStream(p, input).pool, base)
    decreases |input|
  {
    match ReadFrame(input)
    case Frame(tag, payload, rest) =>
      RouteValid(p, base, tag, payload);
      RunStreamValid(Route(p, tag, payload).pool, base, rest);
    case _ =>
  }

  /** A stream that begins with an encoded frame is dispatched frame first. */
  lemma RunStreamFrame(p: Pool, tag: Int32, payload: seq<byte>, rest: seq<byte>)
    requires |payload| <= MaxFrameLength
    ensures var s := Route(p, tag, payload);
      RunStream(p, EncodeFrame(tag, payload) + rest)
        == StreamRun(RunStream(s.pool, rest).pool, [s.event] + RunStream(s.pool, rest).events)
  {
    ReadEncodedFrame(tag, payload, rest);
  }

  /** The bytes of a run of SendNotification calls, back to back. */
  function NotificationBytes(payloads: seq<seq<byte>>): (bytes: seq<byte>)
    requires forall i :: 0 <= i < |payloads| ==> |payloads[i]| <= MaxFrameLength
  {
    if payloads == [] then []
    else EncodeFrame(NotificationTag, payloads[0]) + NotificationBytes(payloads[1..])
  }

  /** Every notification sent on a connection is raised exactly once at the
      receiver, with the same payload, in sending order, and the tag pool is
      not touched; the drop comes only when the stream ends. */
  lemma {:induction false} NotificationsInOrder(p: Pool, payloads: seq<seq<byte>>)
    requires forall i :: 0 <= i < |payloads| ==> |payloads[i]| <= MaxFrameLength
    ensures RunStream(p, NotificationBytes(payloads)).pool == p
    ensures |RunStream(p, NotificationBytes(payloads)).events| == |payloads| + 1
    ensures forall i :: 0 <= i < |payloads| ==>
              RunStream(p, NotificationBytes(payloads)).events[i] == Notification(payloads[i])
    decreases |payloads|
  {
    if payloads == [] {
      assert ReadFrame([]) == ShortRead;
    } else {
      var rest := NotificationBytes(payloads[1..]);
      RunStreamFrame(p, NotificationTag, payloads[0], rest);
      NotificationsInOrder(p, payloads[1..]);
    }
  }

  /** Three notifications [1,2,3], [4,5,6], [7,8,9] sent on one connection
      arrive as exactly three notifications, in that order, with the same
      bytes. */
  lemma ThreeNotificationsArriveInOrder(p: Pool)
    ensures RunStream(p, NotificationBytes([[1, 2, 3], [4, 5, 6], [7, 8, 9]])).events
      == [Notification([1, 2, 3]), Notification([4, 5, 6]), Notification([7, 8, 9]), ConnectionDropped]
  {
    var payloads: seq<seq<byte>> := [[1, 2, 3], [4, 5, 6], [7, 8, 9]];
    NotificationsInOrder(p, payloads);
    var evs := RunStream(p, NotificationBytes(payloads)).events;
    assert evs[0] == Notification([1, 2, 3]);
    assert evs[1] == Notification([4, 5, 6]);
    assert evs[2] == Notification([7, 8, 9]);
  }
}
