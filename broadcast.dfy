/** The broadcast both servers perform: send to every member of a snapshot
    of the table, in order, swallowing SocketException; any other exception
    leaves the loop and reaches the caller. */
module Broadcast {
  import opened Sockets

  /** An outcome the per-member try/catch does not swallow. */
  predicate Escapes(o: Outcome)
  {
    o.Fail? && !o.failure.SocketFault?
  }

  /** How many members the broadcast sends to before an exception escapes. */
  function Reach(outcomes: seq<Outcome>): (n: nat)
    ensures n <= |outcomes|
    ensures forall i :: 0 <= i < n ==> !Escapes(outcomes[i])
    ensures n < |outcomes| ==> Escapes(outcomes[n])
    decreases |outcomes|
  {
    if outcomes == [] || Escapes(outcomes[0]) then 0
    else 1 + Reach(outcomes[1..])
  }

  /** What the broadcast raises: the first escaping exception, if any. */
  function Raised(outcomes: seq<Outcome>): (r: Outcome)
    ensures r.Done? <==> forall i :: 0 <= i < |outcomes| ==> !Escapes(outcomes[i])
    ensures r.Fail? ==> Escapes(r) && r in outcomes
  {
    if Reach(outcomes) < |outcomes| then outcomes[Reach(outcomes)] else Done
  }

  /** A failed send to one member (SocketException) does not keep the
      broadcast from reaching every later member. */
  lemma {:induction false} SocketFaultsDoNotStop(outcomes: seq<Outcome>)
    requires forall i :: 0 <= i < |outcomes| ==> outcomes[i].Done? || outcomes[i] == Fail(SocketFault)
    ensures Reach(outcomes) == |outcomes| && Raised(outcomes) == Done
    decreases |outcomes|
  {
    if outcomes != [] {
      SocketFaultsDoNotStop(outcomes[1..]);
    }
  }
}
