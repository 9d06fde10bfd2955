/**
 The select client (07/client.c, str_cli) and its predecessor that exits at the end of stdin
 (str_cli02), each composed with one connection to the echo server.  Every system call of
 the client and every system call of the server is a step, so a run is one interleaving.
 */
module Relay {
  import opened Bytes
  import opened EchoLink
  import opened Runs

  // Where the client is: about to make the named call, holding bytes it has read, or finished.
  datatype Pc =
    | AtSelect | AtReadSock | AtWriteOut(obuf: seq<byte>)
    | AtReadStdin | AtWriteSock(sbuf: seq<byte>) | AtShutdown
    | Returned          // "normal termination"
    | Died              // "server terminated prematurely"
    | Exited            // str_cli02 only: exit at end of stdin

  datatype State = State(
    halfClose: bool,    // str_cli, as opposed to str_cli02
    input: seq<byte>,   // all of stdin
    unread: seq<byte>,  // what is left of it
    eof: bool,          // stdineof
    sockReady: bool, stdinReady: bool,   // what the last select reported
    pc: Pc,
    link: Link,
    output: seq<byte>)

  function Start(halfClose: bool, input: seq<byte>): State {
    State(halfClose, input, input, false, false, false, AtSelect, FRESH, [])
  }

  datatype Action =
    | Select(sock: bool, stdin: bool)
    | ReadSock(n: nat) | WriteOut
    | ReadStdin(n: nat) | WriteSock | Shutdown
    | Server(a: ServerStep)

  predicate Enabled(s: State, a: Action) {
    match a
    case Select(sock, stdin) =>
      s.pc == AtSelect && (sock || stdin) && (sock ==> s.link.Readable()) && (stdin ==> !s.eof)
    case ReadSock(n) => s.pc == AtReadSock && s.link.Readable() && ReadCount(s.link.down, n)
    case WriteOut => s.pc.AtWriteOut?
    case ReadStdin(n) => s.pc == AtReadStdin && ReadCount(s.unread, n)
    case WriteSock => s.pc.AtWriteSock?
    case Shutdown => s.pc == AtShutdown
    case Server(b) => CanServe(s.link, b)
  }

  function Step(s: State, a: Action): State
    requires Enabled(s, a)
  {
    match a
    case Select(sock, stdin) =>
      s.(sockReady := sock, stdinReady := stdin, pc := if sock then AtReadSock else AtReadStdin)
    case ReadSock(n) =>
      if n == 0 then s.(pc := if s.eof then Returned else Died)
      else s.(link := s.link.(down := s.link.down[n..]), pc := AtWriteOut(s.link.down[..n]))
    case WriteOut =>
      s.(output := s.output + s.pc.obuf, pc := if s.stdinReady then AtReadStdin else AtSelect)
    case ReadStdin(n) =>
      if n > 0 then s.(unread := s.unread[n..], pc := AtWriteSock(s.unread[..n]))
      else if s.halfClose then s.(eof := true, pc := AtShutdown)
      else s.(pc := Exited)
    case WriteSock => s.(link := s.link.(up := s.link.up + s.pc.sbuf), pc := AtSelect)
    case Shutdown => s.(link := s.link.(fin := true), stdinReady := false, pc := AtSelect)
    case Server(b) => s.(link := Served(s.link, b))
  }

  /* ----- what every step keeps ----- */

  function OutHeld(s: State): seq<byte> {
    if s.pc.AtWriteOut? then s.pc.obuf else []
  }

  function SockHeld(s: State): seq<byte> {
    if s.pc.AtWriteSock? then s.pc.sbuf else []
  }

  // stdin, cut into the places its bytes can be.
  ghost predicate Conserved(s: State) {
    s.output + OutHeld(s) + s.link.InFlight() + SockHeld(s) + s.unread == s.input
  }

  ghost predicate Control(s: State) {
    && s.link.Valid()
    && (s.link.fin <==> s.eof && s.pc != AtShutdown)
    && (s.eof ==> s.halfClose && s.unread == [])
    && (s.eof && s.pc != AtShutdown ==> !s.stdinReady)
    && match s.pc
       case AtSelect => true
       case AtReadSock => s.link.Readable()
       case AtWriteOut(b) => b != []
       case AtReadStdin => s.stdinReady && !s.eof
       case AtWriteSock(b) => b != [] && !s.eof
       case AtShutdown => s.eof
       case Returned => s.eof && s.link.closed && s.link.down == []
       case Died => false
       case Exited => !s.halfClose && s.unread == []
  }

  ghost predicate Inv(s: State) {
    Conserved(s) && Control(s)
  }

  // Moving a piece from one place to the next does not change the whole.
  lemma StepConserves(s: State, a: Action)
    requires s.link.Valid() && Conserved(s) && Enabled(s, a)
    ensures Conserved(Step(s, a))
  {
    var t := Step(s, a);
    if a.Server? {
      ServedKeeps(s.link, a.a);
    }
    match a
    case Select(_, _) =>
    case ReadSock(n) =>
      if n > 0 {
        Received(s.link, n);
        Regroup(s.output, OutHeld(t), t.link.InFlight());
        assert s.output + OutHeld(s) == s.output;
      }
    case WriteOut =>
      assert t.output + OutHeld(t) == s.output + OutHeld(s);
    case ReadStdin(n) =>
      Cut(s.unread, n);
      var before := s.output + OutHeld(s) + s.link.InFlight();
      assert SockHeld(t) + t.unread == SockHeld(s) + s.unread;
      Regroup(before, SockHeld(s), s.unread);
      Regroup(before, SockHeld(t), t.unread);
    case WriteSock =>
      Sent(s.link, s.pc.sbuf);
      Regroup(s.output + OutHeld(s), s.link.InFlight(), SockHeld(s));
      assert t.link.InFlight() + SockHeld(t) == t.link.InFlight();
    case Shutdown =>
    case Server(b) =>
  }

  lemma StepKeeps(s: State, a: Action)
    requires Inv(s) && Enabled(s, a)
    ensures Inv(Step(s, a)) && Step(s, a).input == s.input && Step(s, a).halfClose == s.halfClose
  {
    StepConserves(s, a);
    if a.Server? {
      ServedKeeps(s.link, a.a);
    }
  }

  lemma RunKeeps(s: State, run: seq<Action>)
    requires Inv(s) && IsRun(Enabled, Step, s, run)
    ensures var t := End(Enabled, Step, s, run); Inv(t) && t.input == s.input && t.halfClose == s.halfClose
  {
    var same := (t: State) => Inv(t) && t.input == s.input && t.halfClose == s.halfClose;
    forall t, a | same(t) && Enabled(t, a) ensures same(Step(t, a)) {
      StepKeeps(t, a);
    }
    Always(Enabled, Step, same, s, run);
  }

  lemma AtTheEnd(s: State)
    requires Inv(s)
    ensures s.output <= s.input && s.pc != Died && (s.eof ==> s.halfClose)
    ensures s.pc == Returned ==> s.halfClose && s.output == s.input
    ensures s.pc == Exited ==> (s.output == s.input <==> s.link.InFlight() == [])
  {
  }

  // What a read of the socket that reports the end of the connection means to str_cli.
  lemma EndOfConnection(s: State)
    requires Enabled(s, ReadSock(0))
    ensures s.link.closed && s.link.down == []
    ensures Step(s, ReadSock(0)).pc == Died <==> !s.eof
    ensures Inv(s) && s.halfClose ==> s.eof && s.output == s.input
  {
  }

  // The echo theorem: in every interleaving and for every way of cutting the data into reads,
  // str_cli never finds the server terminated prematurely, because the end of the connection can
  // only be read after the end of stdin; its output is at all times a prefix of stdin, and if it
  // returns its output is stdin.
  lemma EchoTheorem(input: seq<byte>, run: seq<Action>)
    requires IsRun(Enabled, Step, Start(true, input), run)
    ensures var t := End(Enabled, Step, Start(true, input), run);
            && t.pc != Died && t.output <= input && (t.pc == Returned ==> t.output == input)
            && (Enabled(t, ReadSock(0)) ==> t.eof)
  {
    StartOk(true, input);
    hide IsRun, End, Start, Inv, Enabled;
    RunKeeps(Start(true, input), run);
    AtTheEnd(End(Enabled, Step, Start(true, input), run));
    if Enabled(End(Enabled, Step, Start(true, input), run), ReadSock(0)) {
      EndOfConnection(End(Enabled, Step, Start(true, input), run));
    }
  }

  /* ----- progress ----- */

  ghost function Rank(s: State): nat {
    if s.pc == AtSelect then 1 else 0
  }

  // Every byte's distance from the output, and the end-of-file events still to come.
  ghost function Work(s: State): nat {
    2 * (6 * |s.unread| + 5 * |SockHeld(s)| + s.link.Weight() + |OutHeld(s)|
         + (if s.eof || s.pc == Exited then 0 else 2) + (if s.link.fin then 0 else 2)
         + (if s.pc == Returned then 0 else 1))
    + Rank(s)
  }

  lemma StepWorks(s: State, a: Action)
    requires Inv(s) && Enabled(s, a)
    ensures Work(Step(s, a)) < Work(s)
  {
    hide Conserved, Link.InFlight;
    if a.Server? {
      ServedKeeps(s.link, a.a);
    }
  }

  lemma RunWorks(s: State, run: seq<Action>)
    requires Inv(s) && IsRun(Enabled, Step, s, run)
    ensures Work(End(Enabled, Step, s, run)) + |run| <= Work(s)
  {
    forall t, a | Inv(t) && Enabled(t, a) ensures Inv(Step(t, a)) && Work(Step(t, a)) < Work(t) {
      StepKeeps(t, a);
      StepWorks(t, a);
    }
    Bounded(Enabled, Step, Inv, Work, s, run);
  }

  // No deadlock: client and server are both stuck only when str_cli has returned.
  lemma StuckMeansReturned(s: State)
    requires Inv(s) && s.halfClose
    ensures (forall a :: !Enabled(s, a)) <==> s.pc == Returned
  {
    if s.pc == Returned {
      forall a ensures !Enabled(s, a) {
      }
    } else {
      match s.pc
      case AtSelect =>
        if !s.eof {
          assert Enabled(s, Select(false, true));
        } else if s.link.Readable() {
          assert Enabled(s, Select(true, false));
        } else {
          assert Enabled(s, Server(NextServerStep(s.link, 1)));
        }
      case AtReadSock => assert Enabled(s, ReadSock(Min(1, |s.link.down|)));
      case AtWriteOut(_) => assert Enabled(s, WriteOut);
      case AtReadStdin => assert Enabled(s, ReadStdin(Min(1, |s.unread|)));
      case AtWriteSock(_) => assert Enabled(s, WriteSock);
      case AtShutdown => assert Enabled(s, Shutdown);
    }
  }

  // Total correctness: a run has at most Work(start) steps, and a run that cannot be extended
  // has returned normally with output equal to stdin.
  lemma TotalCorrectness(input: seq<byte>, run: seq<Action>)
    requires IsRun(Enabled, Step, Start(true, input), run)
    ensures |run| <= 12 * |input| + 13
    ensures var t := End(Enabled, Step, Start(true, input), run);
            (forall a :: !Enabled(t, a)) ==> t.pc == Returned && t.output == input
  {
    StartOk(true, input);
    hide IsRun, End, Control, Start, Enabled, Step;
    RunKeeps(Start(true, input), run);
    RunWorks(Start(true, input), run);
    StuckMeansReturned(End(Enabled, Step, Start(true, input), run));
    AtTheEnd(End(Enabled, Step, Start(true, input), run));
  }

  lemma StartOk(halfClose: bool, input: seq<byte>)
    ensures var s := Start(halfClose, input);
            Inv(s) && Work(s) == 12 * |input| + 13 && s.input == input && s.halfClose == halfClose
  {
  }

  /* ----- half-close discipline ----- */

  predicate IsShutdown(a: Action) {
    a == Shutdown
  }

  // Once it has shut down, the client never reads stdin, writes the socket or shuts down again.
  lemma {:induction false} QuietAfterFin(s: State, run: seq<Action>)
    requires Inv(s) && s.link.fin && IsRun(Enabled, Step, s, run)
    ensures forall a | a in run :: !a.ReadStdin? && !a.WriteSock? && !a.Shutdown?
    ensures End(Enabled, Step, s, run).link.fin
    decreases |run|
  {
    if run != [] {
      StepKeeps(s, run[0]);
      if run[0].Server? {
        ServedKeeps(s.link, run[0].a);
      }
      QuietAfterFin(Step(s, run[0]), run[1..]);
      assert run == [run[0]] + run[1..];
    }
  }

  // It shuts down exactly once: never before the FIN, and the FIN is never sent otherwise.
  lemma {:induction false} ShutsDownOnce(s: State, run: seq<Action>)
    requires Inv(s) && !s.link.fin && IsRun(Enabled, Step, s, run)
    ensures CountOf(IsShutdown, run) == if End(Enabled, Step, s, run).link.fin then 1 else 0
    decreases |run|
  {
    if run != [] {
      StepKeeps(s, run[0]);
      var t := Step(s, run[0]);
      if t.link.fin {
        QuietAfterFin(t, run[1..]);
        CountNone(IsShutdown, run[1..]);
        assert run[0] == Shutdown;
      } else {
        ShutsDownOnce(t, run[1..]);
      }
    }
  }

  /* ----- the kernel may cut the data in every way ----- */

  // At select, with everything that has been read from stdin already printed.
  ghost predicate Quiet(s: State) {
    s.pc == AtSelect && !s.eof && s.link == FRESH
  }

  // A piece of n bytes goes all the way round, uncut.
  function RoundTrip(n: nat): seq<Action> {
    [Select(false, true), ReadStdin(n), WriteSock, Server(Take(n)), Server(Put), Select(true, false), ReadSock(n),
     WriteOut]
  }

  // It is sent and echoed, and then printed.
  lemma SendPiece(s0: State, run0: seq<Action>, n: nat) returns (run: seq<Action>)
    requires IsRun(Enabled, Step, s0, run0)
    requires var s := End(Enabled, Step, s0, run0); Quiet(s) && 1 <= n <= |s.unread| && n <= 1024
    ensures run == run0 + RoundTrip(n)[..5] && IsRun(Enabled, Step, s0, run)
    ensures var s, t := End(Enabled, Step, s0, run0), End(Enabled, Step, s0, run);
            t == s.(unread := s.unread[n..], link := FRESH.(down := s.unread[..n]),
                    sockReady := false, stdinReady := true)
  {
    hide IsRun, End;
    run := Extend(Enabled, Step, s0, run0, Select(false, true));
    run := Extend(Enabled, Step, s0, run, ReadStdin(n));
    run := Extend(Enabled, Step, s0, run, WriteSock);
    run := Extend(Enabled, Step, s0, run, Server(Take(n)));
    run := Extend(Enabled, Step, s0, run, Server(Put));
  }

  lemma EchoPiece(s0: State, run0: seq<Action>, n: nat) returns (run: seq<Action>)
    requires IsRun(Enabled, Step, s0, run0)
    requires var s := End(Enabled, Step, s0, run0); Quiet(s) && 1 <= n <= |s.unread| && n <= 1024
    ensures run == run0 + RoundTrip(n) && IsRun(Enabled, Step, s0, run)
    ensures var s, t := End(Enabled, Step, s0, run0), End(Enabled, Step, s0, run);
            && Quiet(t) && t.unread == s.unread[n..] && t.output == s.output + s.unread[..n]
            && t.halfClose == s.halfClose
  {
    hide IsRun, End;
    run := SendPiece(s0, run0, n);
    run := Extend(Enabled, Step, s0, run, Select(true, false));
    run := Extend(Enabled, Step, s0, run, ReadSock(n));
    run := Extend(Enabled, Step, s0, run, WriteOut);
  }

  function RoundTrips(cuts: seq<nat>): seq<Action> {
    if cuts == [] then [] else RoundTrips(cuts[..|cuts| - 1]) + RoundTrip(cuts[|cuts| - 1])
  }

  function Sum(cuts: seq<nat>): nat {
    if cuts == [] then 0 else Sum(cuts[..|cuts| - 1]) + cuts[|cuts| - 1]
  }

  lemma Slices(data: seq<byte>, a: nat, n: nat)
    requires a + n <= |data|
    ensures data[a..][n..] == data[a + n..] && data[..a] + data[a..][..n] == data[..a + n]
  {
  }

  // For every way of cutting stdin into pieces that fit the buffer there is a run that reads, echoes
  // and prints it in just these pieces.
  lemma {:induction false} EveryCut(halfClose: bool, input: seq<byte>, cuts: seq<nat>)
    requires Sum(cuts) <= |input| && forall i | 0 <= i < |cuts| :: 1 <= cuts[i] <= 1024
    ensures IsRun(Enabled, Step, Start(halfClose, input), RoundTrips(cuts))
    ensures var t := End(Enabled, Step, Start(halfClose, input), RoundTrips(cuts));
            Quiet(t) && t.unread == input[Sum(cuts)..] && t.output == input[..Sum(cuts)]
    decreases |cuts|
  {
    hide Enabled, Step, RoundTrip;
    if cuts != [] {
      var k := |cuts| - 1;
      var done := Sum(cuts[..k]);
      EveryCut(halfClose, input, cuts[..k]);
      var run := EchoPiece(Start(halfClose, input), RoundTrips(cuts[..k]), cuts[k]);
      Slices(input, done, cuts[k]);
    }
  }

  /* ----- str_cli02 for contrast ----- */

  function Ones(k: nat): (cuts: seq<nat>)
    ensures |cuts| == k && forall i | 0 <= i < k :: cuts[i] == 1
  {
    seq(k, _ => 1)
  }

  lemma {:induction false} SumOnes(k: nat)
    ensures Sum(Ones(k)) == k
  {
    if k > 0 {
      SumOnes(k - 1);
      assert Ones(k)[..k - 1] == Ones(k - 1);
    }
  }

  // The rest of stdin is sent, and the client exits without waiting for the echo.
  lemma {:induction false} SendAndExit(s0: State, run0: seq<Action>) returns (run: seq<Action>)
    requires IsRun(Enabled, Step, s0, run0)
    requires var s := End(Enabled, Step, s0, run0); s.pc == AtSelect && !s.halfClose && !s.eof
    ensures IsRun(Enabled, Step, s0, run)
    ensures var t := End(Enabled, Step, s0, run); t.pc == Exited && t.output == End(Enabled, Step, s0, run0).output
    decreases |End(Enabled, Step, s0, run0).unread|
  {
    hide IsRun, End;
    var s := End(Enabled, Step, s0, run0);
    run := Extend(Enabled, Step, s0, run0, Select(false, true));
    run := Extend(Enabled, Step, s0, run, ReadStdin(Min(1, |s.unread|)));
    if s.unread != [] {
      run := Extend(Enabled, Step, s0, run, WriteSock);
      run := SendAndExit(s0, run);
    }
  }

  // At every point of every run.
  lemma OutputIsPrefix(input: seq<byte>, run: seq<Action>)
    requires IsRun(Enabled, Step, Start(false, input), run)
    ensures var t := End(Enabled, Step, Start(false, input), run);
            t.output <= input && t.pc != Died && t.pc != Returned
  {
    StartOk(false, input);
    hide IsRun, End, Start, Inv;
    RunKeeps(Start(false, input), run);
    AtTheEnd(End(Enabled, Step, Start(false, input), run));
  }

  ghost predicate CanExitWith(input: seq<byte>, output: seq<byte>) {
    exists run :: IsRun(Enabled, Step, Start(false, input), run)
                  && End(Enabled, Step, Start(false, input), run).pc == Exited
                  && End(Enabled, Step, Start(false, input), run).output == output
  }

  // What str_cli02 can have printed when it exits: every prefix of stdin, and nothing else.
  lemma ExitOutputs(input: seq<byte>, output: seq<byte>)
    ensures CanExitWith(input, output) <==> output <= input
  {
    if output <= input {
      SumOnes(|output|);
      EveryCut(false, input, Ones(|output|));
      StartOk(false, input);
      RunKeeps(Start(false, input), RoundTrips(Ones(|output|)));
      var run := SendAndExit(Start(false, input), RoundTrips(Ones(|output|)));
      assert input[..|output|] == output;
    }
    forall run | IsRun(Enabled, Step, Start(false, input), run)
      ensures End(Enabled, Step, Start(false, input), run).output <= input
    {
      OutputIsPrefix(input, run);
    }
  }

  // So stdin is certain to be printed in full if and only if there is nothing to print.
  lemma ExitLoses(input: seq<byte>)
    ensures (forall output | CanExitWith(input, output) :: output == input) <==> input == []
  {
    ExitOutputs(input, []);
    assert CanExitWith(input, []);
    forall output | CanExitWith(input, output) ensures output <= input {
      ExitOutputs(input, output);
    }
  }
}
