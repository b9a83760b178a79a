/** The keep-alive counter of a datagram connection.  Every probe tick
    counts one more missed probe and drops the connection when the count
    before the tick is above the configured number of probes; any inbound
    datagram sets the count back to zero. */
module KeepAlive {

  datatype Option<T> = None | Some(value: T)

  datatype TickResult = TickResult(missed: int, dropped: bool)

  /** ProcessProbeTick: `_probesMissed++ > _probes` compares the count from
      before the increment. */
  function Tick(missed: int, probes: int): (r: TickResult)
    ensures r.missed > missed
    ensures r.dropped <==> r.missed > probes + 1
  {
    TickResult(missed + 1, missed > probes)
  }

  /** What the counter sees between two ticks of the clock. */
  datatype Signal = Probe | Packet

  /** Index in `signals` of the tick that drops the connection, if any. */
  function FirstDrop(missed: int, probes: int, signals: seq<Signal>): (r: Option<nat>)
    ensures r.Some? ==> r.value < |signals| && signals[r.value] == Probe
    decreases |signals|
  {
    if signals == [] then None
    else
      var later := if signals[0] == Packet then FirstDrop(0, probes, signals[1..])
                   else FirstDrop(Tick(missed, probes).missed, probes, signals[1..]);
      if signals[0] == Probe && Tick(missed, probes).dropped then Some(0)
      else if later.Some? then Some(later.value + 1)
      else None
  }

  function Probes(n: nat): (s: seq<Signal>)
    ensures |s| == n && forall i :: 0 <= i < n ==> s[i] == Probe
  {
    seq(n, _ => Probe)
  }

  /** With no datagram at all, the tick that drops the connection is the
      first one whose count before it exceeds `probes`. */
  lemma {:induction false} SilenceDrops(missed: int, probes: int, n: nat)
    ensures var k := if missed > probes then 0 else probes + 1 - missed;
      FirstDrop(missed, probes, Probes(n)) == if k < n then Some(k) else None
    decreases n
  {
    if n > 0 {
      assert Probes(n)[1..] == Probes(n - 1);
      SilenceDrops(missed + 1, probes, n - 1);
    }
  }

  /** After a datagram the connection survives `probes + 1` silent ticks,
      each of which sends a ping, and is dropped on tick `probes + 2`. */
  lemma DropOnTickProbesPlusTwo(probes: nat)
    ensures FirstDrop(0, probes, Probes(probes + 2)) == Some(probes + 1)
    ensures FirstDrop(0, probes, Probes(probes + 1)) == None
  {
    SilenceDrops(0, probes, probes + 2);
    SilenceDrops(0, probes, probes + 1);
  }

  /** The longest run of ticks without a datagram, counting the `current`
      ticks already missed. */
  function LongestSilence(current: nat, signals: seq<Signal>): (n: nat)
    ensures n >= current
    decreases |signals|
  {
    if signals == [] then current
    else if signals[0] == Probe then LongestSilence(current + 1, signals[1..])
    else
      var later := LongestSilence(0, signals[1..]);
      if later > current then later else current
  }

  /** The connection is dropped exactly when some run of ticks without a
      datagram is longer than `probes + 1`: it never fires while datagrams
      keep arriving often enough, and always fires once they stop. */
  lemma {:induction false} DroppedIffLongSilence(missed: nat, probes: int, signals: seq<Signal>)
    requires missed <= probes + 1
    ensures FirstDrop(missed, probes, signals).None? <==> LongestSilence(missed, signals) <= probes + 1
    decreases |signals|
  {
    if signals != [] {
      if signals[0] == Packet {
        DroppedIffLongSilence(0, probes, signals[1..]);
      } else if missed <= probes {
        DroppedIffLongSilence(missed + 1, probes, signals[1..]);
      }
    }
  }

  /** When a datagram arrives between every two ticks, nothing is dropped. */
  lemma {:induction false} PacketEveryIntervalKeepsAlive(probes: nat, signals: seq<Signal>)
    requires forall i :: 0 <= i < |signals| - 1 ==> signals[i] == Probe ==> signals[i + 1] == Packet
    ensures FirstDrop(0, probes, signals) == None
  {
    AlternationIsShortSilence(signals);
    DroppedIffLongSilence(0, probes, signals);
  }

  lemma {:induction false} AlternationIsShortSilence(signals: seq<Signal>)
    requires forall i :: 0 <= i < |signals| - 1 ==> signals[i] == Probe ==> signals[i + 1] == Packet
    ensures LongestSilence(0, signals) <= 1
    decreases |signals|
  {
    if signals != [] {
      AlternationIsShortSilence(signals[1..]);
      if signals[0] == Probe && |signals| > 1 {
        assert signals[1] == Packet;
        AlternationIsShortSilence(signals[2..]);
        assert signals[1..][1..] == signals[2..];
      }
    }
  }
}
