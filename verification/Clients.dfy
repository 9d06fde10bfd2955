/** Several select clients (07/client.c, str_cli) beside each other, whatever server they talk to. */
module Clients {
  import opened Bytes
  import opened EchoLink
  import Relay

  // One client for each stdin.
  function StartAll(inputs: seq<seq<byte>>): seq<Relay.State> {
    seq(|inputs|, i requires 0 <= i < |inputs| => Relay.Start(true, inputs[i]))
  }

  // What the clients have on stdin.
  ghost function Inputs(clients: seq<Relay.State>): seq<seq<byte>> {
    seq(|clients|, i requires 0 <= i < |clients| => clients[i].input)
  }

  ghost function WorkOf(clients: seq<Relay.State>): nat {
    if clients == [] then 0 else WorkOf(clients[..|clients| - 1]) + Relay.Work(clients[|clients| - 1])
  }

  // Clients of which none has come further from its end, and client i has come nearer.
  lemma {:induction false} WorkFalls(before: seq<Relay.State>, after: seq<Relay.State>, i: nat)
    requires |before| == |after|
    requires forall k | 0 <= k < |before| :: Relay.Work(after[k]) <= Relay.Work(before[k])
    ensures WorkOf(after) <= WorkOf(before)
    ensures i < |before| && Relay.Work(after[i]) < Relay.Work(before[i]) ==> WorkOf(after) < WorkOf(before)
  {
    hide Relay.Work;
    if before != [] {
      var n := |before| - 1;
      WorkFalls(before[..n], after[..n], i);
    }
  }

  ghost function Total(inputs: seq<seq<byte>>): nat {
    if inputs == [] then 0 else Total(inputs[..|inputs| - 1]) + |inputs[|inputs| - 1]|
  }

  lemma {:induction false} StartWorks(inputs: seq<seq<byte>>)
    ensures WorkOf(StartAll(inputs)) == 12 * Total(inputs) + 13 * |inputs|
    decreases |inputs|
  {
    if inputs != [] {
      var n := |inputs| - 1;
      StartWorks(inputs[..n]);
      Relay.StartOk(true, inputs[n]);
      assert StartAll(inputs)[..n] == StartAll(inputs[..n]);
    }
  }

  lemma BeforeFin(r: Relay.State)
    requires Relay.Inv(r) && (r.pc.AtWriteSock? || r.pc == Relay.AtShutdown)
    ensures !r.link.fin
  {
  }

  // A client that has not returned makes a call, or waits for the server.
  lemma SomeMove(r: Relay.State) returns (b: Relay.Action)
    requires Relay.Inv(r) && r.halfClose && r.pc != Relay.Returned
    ensures Relay.Enabled(r, b)
    ensures b.Server? && r.link.held == [] ==> (r.link.up != [] || r.link.fin) && !r.link.closed
  {
    hide Relay.Inv;
    Relay.StuckMeansReturned(r);
    b :| Relay.Enabled(r, b);
  }
}
