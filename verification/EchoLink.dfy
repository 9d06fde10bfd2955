/**
 One TCP connection to an echo server, as the relay clients see it: a FIFO channel each way,
 the client's half-close (section 3.6 of RFC 9293), and the server's end of the connection,
 which repeats what 07/server.c does for one client: read a piece, write it back, and close
 when the read reports the end of input.
 */
module EchoLink {
  import opened Bytes

  datatype Link = Link(
    up: seq<byte>,     // sent by the client, not yet read by the server
    fin: bool,         // the client has shut down its sending side
    held: seq<byte>,   // read by the server, not yet written back
    closed: bool,      // the server has closed the connection
    down: seq<byte>)   // written by the server, not yet read by the client
  {
    // The server closes only after it has seen the client's FIN, with everything echoed.
    ghost predicate Valid() {
      closed ==> fin && up == [] && held == []
    }

    // A read by the client would not block.
    predicate Readable() {
      down != [] || closed
    }

    // Everything that has been sent and not yet received back, oldest first.
    ghost function InFlight(): seq<byte> {
      down + held + up
    }

    ghost function Weight(): nat {
      4 * |up| + 3 * |held| + 2 * |down| + (if closed then 0 else 1)
    }
  }

  const FRESH: Link := Link([], false, [], false, [])

  datatype ServerStep = Take(n: nat) | Put | Shut

  predicate CanServe(l: Link, a: ServerStep) {
    !l.closed &&
    match a
    case Take(n) => l.held == [] && 1 <= n <= |l.up| && n <= BUFSIZE
    case Put => l.held != []
    case Shut => l.held == [] && l.up == [] && l.fin
  }

  function Served(l: Link, a: ServerStep): Link
    requires CanServe(l, a)
  {
    match a
    case Take(n) => l.(up := l.up[n..], held := l.up[..n])
    case Put => l.(held := [], down := l.down + l.held)
    case Shut => l.(closed := true)
  }

  // What the server would do next, reading n bytes if it is to read.
  function NextServerStep(l: Link, n: nat): ServerStep {
    if l.held != [] then Put else if l.up != [] then Take(n) else Shut
  }

  // The server neither loses nor reorders anything, makes progress with every step, never
  // retracts readability, and is idle only while it waits for the client.
  lemma ServedKeeps(l: Link, a: ServerStep)
    requires l.Valid() && CanServe(l, a)
    ensures var l' := Served(l, a);
            && l'.Valid() && l'.InFlight() == l.InFlight() && l'.Weight() < l.Weight()
            && l'.fin == l.fin && l.down <= l'.down && (l.Readable() ==> l'.Readable())
  {
    if a.Take? {
      assert l.up == l.up[..a.n] + l.up[a.n..];
    }
  }

  // The client receives the oldest bytes in flight, and adds to the newest.
  lemma Received(l: Link, n: nat)
    requires n <= |l.down|
    ensures l.down[..n] + l.(down := l.down[n..]).InFlight() == l.InFlight()
  {
    assert l.down == l.down[..n] + l.down[n..];
  }

  lemma Sent(l: Link, data: seq<byte>)
    ensures l.(up := l.up + data).InFlight() == l.InFlight() + data
  {
  }

  lemma ServerIdle(l: Link)
    requires l.Valid()
    ensures (forall a :: !CanServe(l, a)) <==> l.closed || (l.held == [] && l.up == [] && !l.fin)
  {
    if !(l.closed || (l.held == [] && l.up == [] && !l.fin)) {
      assert CanServe(l, NextServerStep(l, 1));
    }
  }
}
