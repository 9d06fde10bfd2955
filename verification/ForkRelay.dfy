/**
 The two-process client (16/fork_strcli.c): the parent copies stdin to the socket, the child
 copies the socket to the output and kills the parent when the server has closed.  Both hold
 the same socket.  A run is one interleaving of parent, child and echo server.
 */
module ForkRelay {
  import opened Bytes
  import opened EchoLink
  import opened Runs

  datatype ParentPc =
    | Reading | Writing(buf: seq<byte>) | Ending | BeforePause | Paused | Killed
  datatype ChildPc =
    | Receiving | Printing(buf: seq<byte>) | BeforeKill | BeforeExit | Gone

  datatype State = State(
    useShutdown: bool,   // the source calls shutdown; false is the variant that calls close
    input: seq<byte>, unread: seq<byte>,
    parent: ParentPc, child: ChildPc,
    refs: nat,           // processes that hold the socket
    link: Link, output: seq<byte>)

  // Just after the fork.
  function Start(useShutdown: bool, input: seq<byte>): State {
    State(useShutdown, input, input, Reading, Receiving, 2, FRESH, [])
  }

  datatype Action =
    | ReadStdin(n: nat) | WriteSock | EndSending | Pause
    | ReadSock(n: nat) | WriteOut | KillParent | Exit
    | Server(a: ServerStep)

  predicate Enabled(s: State, a: Action) {
    match a
    case ReadStdin(n) => s.parent == Reading && ReadCount(s.unread, n)
    case WriteSock => s.parent.Writing?
    case EndSending => s.parent == Ending
    case Pause => s.parent == BeforePause
    case ReadSock(n) => s.child == Receiving && s.link.Readable() && ReadCount(s.link.down, n)
    case WriteOut => s.child.Printing?
    case KillParent => s.child == BeforeKill
    case Exit => s.child == BeforeExit
    case Server(b) => CanServe(s.link, b)
  }

  // One process gives up the socket; the last one to do so ends the sending side.
  function Release(s: State): State {
    s.(refs := Max(s.refs - 1, 0), link := s.link.(fin := s.link.fin || s.refs <= 1))
  }

  // The parent has called shutdown (or close).
  predicate SentAll(s: State) {
    s.parent == BeforePause || s.parent == Paused || s.parent == Killed
  }

  // shutdown leaves the descriptor open; close gives it up.
  predicate ParentHolds(s: State) {
    s.parent != Killed && (s.useShutdown || !SentAll(s))
  }

  function Step(s: State, a: Action): State
    requires Enabled(s, a)
  {
    match a
    case ReadStdin(n) =>
      if n == 0 then s.(parent := Ending)
      else s.(unread := s.unread[n..], parent := Writing(s.unread[..n]))
    case WriteSock => s.(link := s.link.(up := s.link.up + s.parent.buf), parent := Reading)
    case EndSending =>
      if s.useShutdown then s.(link := s.link.(fin := true), parent := BeforePause)
      else Release(s).(parent := BeforePause)
    case Pause => s.(parent := Paused)
    case ReadSock(n) =>
      if n == 0 then s.(child := BeforeKill)
      else s.(link := s.link.(down := s.link.down[n..]), child := Printing(s.link.down[..n]))
    case WriteOut => s.(output := s.output + s.child.buf, child := Receiving)
    case KillParent =>
      // SIGTERM ends the parent wherever it is, and with it the parent's descriptors.
      (if ParentHolds(s) then Release(s) else s).(parent := Killed, child := BeforeExit)
    case Exit => Release(s).(child := Gone)
    case Server(b) => s.(link := Served(s.link, b))
  }

  /* ----- what every step keeps ----- */

  function ParentHeld(s: State): seq<byte> {
    if s.parent.Writing? then s.parent.buf else []
  }

  function ChildHeld(s: State): seq<byte> {
    if s.child.Printing? then s.child.buf else []
  }

  ghost predicate Conserved(s: State) {
    s.output + ChildHeld(s) + s.link.InFlight() + ParentHeld(s) + s.unread == s.input
  }

  ghost predicate Control(s: State) {
    && s.link.Valid()
    && (s.link.fin <==> s.useShutdown && SentAll(s))
    && (SentAll(s) || s.parent == Ending ==> s.unread == [])
    && (s.parent.Writing? ==> s.parent.buf != [])
    && (s.child.Printing? ==> s.child.buf != [])
    && (s.child == BeforeKill || s.child == BeforeExit || s.child == Gone ==> s.link.closed && s.link.down == [])
    && (s.parent == Killed <==> s.child == BeforeExit || s.child == Gone)
    && s.refs == (if ParentHolds(s) then 1 else 0) + (if s.child == Gone then 0 else 1)
  }

  ghost predicate Inv(s: State) {
    Conserved(s) && Control(s)
  }

  lemma StepConserves(s: State, a: Action)
    requires s.link.Valid() && Conserved(s) && Enabled(s, a) && (a.KillParent? ==> !s.parent.Writing?)
    ensures Conserved(Step(s, a))
  {
    var t := Step(s, a);
    if a.Server? {
      ServedKeeps(s.link, a.a);
    }
    match a
    case ReadSock(n) =>
      if n > 0 {
        Received(s.link, n);
        Regroup(s.output, ChildHeld(t), t.link.InFlight());
        assert s.output + ChildHeld(s) == s.output;
      }
    case WriteOut =>
      assert t.output + ChildHeld(t) == s.output + ChildHeld(s);
    case ReadStdin(n) =>
      var before := s.output + ChildHeld(s) + s.link.InFlight();
      assert ParentHeld(t) + t.unread == ParentHeld(s) + s.unread;
      Regroup(before, ParentHeld(s), s.unread);
      Regroup(before, ParentHeld(t), t.unread);
    case WriteSock =>
      Sent(s.link, s.parent.buf);
      Regroup(s.output + ChildHeld(s), s.link.InFlight(), ParentHeld(s));
      assert t.link.InFlight() + ParentHeld(t) == t.link.InFlight();
    case _ =>
      assert t.link.InFlight() == s.link.InFlight();
      assert ParentHeld(t) == ParentHeld(s) && ChildHeld(t) == ChildHeld(s);
  }

  lemma StepKeeps(s: State, a: Action)
    requires Inv(s) && Enabled(s, a)
    ensures Inv(Step(s, a)) && Step(s, a).input == s.input && Step(s, a).useShutdown == s.useShutdown
  {
    StepConserves(s, a);
    if a.Server? {
      ServedKeeps(s.link, a.a);
    }
    hide Conserved, Link.InFlight;
  }

  lemma RunKeeps(s: State, run: seq<Action>)
    requires Inv(s) && IsRun(Enabled, Step, s, run)
    ensures var t := End(Enabled, Step, s, run); Inv(t) && t.input == s.input && t.useShutdown == s.useShutdown
  {
    var same := (t: State) => Inv(t) && t.input == s.input && t.useShutdown == s.useShutdown;
    forall t, a | same(t) && Enabled(t, a) ensures same(Step(t, a)) {
      StepKeeps(t, a);
    }
    Always(Enabled, Step, same, s, run);
  }

  // When the child is about to send SIGTERM, the parent is alive, so getppid names it, it has
  // sent all of stdin and shut down its sending side, and everything has been printed.
  lemma KillIsSafe(input: seq<byte>, run: seq<Action>)
    requires IsRun(Enabled, Step, Start(true, input), run)
    requires End(Enabled, Step, Start(true, input), run).child == BeforeKill
    ensures var t := End(Enabled, Step, Start(true, input), run);
            && (t.parent == BeforePause || t.parent == Paused)
            && t.unread == [] && t.link.fin && t.output == input
  {
    StartOk(true, input);
    hide IsRun, End, Conserved, Start;
    RunKeeps(Start(true, input), run);
    ReadyToKill(End(Enabled, Step, Start(true, input), run));
  }

  lemma ReadyToKill(s: State)
    requires Inv(s) && s.useShutdown && s.child == BeforeKill
    ensures (s.parent == BeforePause || s.parent == Paused) && s.unread == [] && s.link.fin && s.output == s.input
  {
  }

  /* ----- progress ----- */

  ghost function Work(s: State): nat {
    6 * |s.unread| + 5 * |ParentHeld(s)| + s.link.Weight() + |ChildHeld(s)|
    + (match s.parent
       case Reading => 4 case Writing(_) => 4 case Ending => 3 case BeforePause => 2 case Paused => 1 case Killed => 0)
    + (match s.child case Receiving => 3 case Printing(_) => 3 case BeforeKill => 2 case BeforeExit => 1 case Gone => 0)
  }

  lemma StepWorks(s: State, a: Action)
    requires Inv(s) && Enabled(s, a)
    ensures Work(Step(s, a)) < Work(s)
  {
    hide Conserved, Link.InFlight;
    if a.Server? {
      ServedKeeps(s.link, a.a);
    }
  }

  lemma RunWorks(s: State, run: seq<Action>)
    requires Inv(s) && IsRun(Enabled, Step, s, run)
    ensures Work(End(Enabled, Step, s, run)) + |run| <= Work(s)
  {
    forall t, a | Inv(t) && Enabled(t, a) ensures Inv(Step(t, a)) && Work(Step(t, a)) < Work(t) {
      StepKeeps(t, a);
      StepWorks(t, a);
    }
    Bounded(Enabled, Step, Inv, Work, s, run);
  }

  // What the parent would do next, if it can move.
  function ParentMove(s: State): Action {
    match s.parent
    case Reading => ReadStdin(Min(1, |s.unread|))
    case Writing(_) => WriteSock
    case Ending => EndSending
    case _ => Pause
  }

  function ChildMove(s: State): Action {
    match s.child
    case Receiving => ReadSock(Min(1, |s.link.down|))
    case Printing(_) => WriteOut
    case BeforeKill => KillParent
    case _ => Exit
  }

  // If the server and the child cannot move, the child waits for the parent, and the parent
  // is not waiting for them; and conversely for a parent that waits to be killed.
  lemma SomeoneMoves(s: State)
    requires Inv(s) && s.useShutdown
    ensures s.child == Receiving && !s.link.Readable() && !CanServe(s.link, NextServerStep(s.link, 1))
            ==> Enabled(s, ParentMove(s))
    ensures SentAll(s) && s.parent != Killed && !CanServe(s.link, NextServerStep(s.link, 1))
            ==> Enabled(s, ChildMove(s))
  {
  }

  // No deadlock: nothing can move only when the parent has been killed and the child has exited.
  lemma StuckMeansDone(s: State)
    requires Inv(s) && s.useShutdown
    ensures (forall a :: !Enabled(s, a)) <==> s.parent == Killed && s.child == Gone
  {
    SomeoneMoves(s);
    if s.parent == Killed && s.child == Gone {
      forall a ensures !Enabled(s, a) {
      }
    } else if !SentAll(s) {
      assert Enabled(s, ParentMove(s));
    } else if s.parent == Killed {
      assert Enabled(s, ChildMove(s));
    } else {
      assert Enabled(s, Server(NextServerStep(s.link, 1))) || Enabled(s, ChildMove(s));
    }
  }

  lemma TotalCorrectness(input: seq<byte>, run: seq<Action>)
    requires IsRun(Enabled, Step, Start(true, input), run)
    ensures |run| <= 6 * |input| + 8
    ensures var t := End(Enabled, Step, Start(true, input), run);
            (forall a :: !Enabled(t, a)) ==> t.parent == Killed && t.child == Gone && t.output == input
  {
    StartOk(true, input);
    hide IsRun, End, Control, Start, Enabled, Step;
    RunKeeps(Start(true, input), run);
    RunWorks(Start(true, input), run);
    var t := End(Enabled, Step, Start(true, input), run);
    StuckMeansDone(t);
    if t.child == Gone && t.parent == Killed {
      AllDone(t);
    }
  }

  lemma StartOk(useShutdown: bool, input: seq<byte>)
    ensures var s := Start(useShutdown, input);
            Inv(s) && Work(s) == 6 * |input| + 8 && s.input == input && s.useShutdown == useShutdown
  {
  }

  lemma AllDone(s: State)
    requires Inv(s) && s.useShutdown && s.child == Gone
    ensures s.parent == Killed && s.output == s.input
  {
  }

  // Why shutdown and not close: the child still holds the socket, so a close by the parent
  // sends no FIN.  Then the child never kills anyone, and every run that cannot be extended
  // leaves both processes waiting for ever.
  lemma CloseWouldHang(input: seq<byte>, run: seq<Action>)
    requires IsRun(Enabled, Step, Start(false, input), run)
    ensures var t := End(Enabled, Step, Start(false, input), run);
            && (t.child == Receiving || t.child.Printing?)
            && ((forall a :: !Enabled(t, a)) ==> t.parent == Paused && t.child == Receiving && !t.link.fin)
  {
    StartOk(false, input);
    hide IsRun, End, Start, Conserved;
    RunKeeps(Start(false, input), run);
    var t := End(Enabled, Step, Start(false, input), run);
    if t.parent != Paused {
      assert Enabled(t, ParentMove(t));
    } else if t.child != Receiving {
      assert Enabled(t, ChildMove(t));
    }
  }
}
