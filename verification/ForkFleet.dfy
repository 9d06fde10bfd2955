/**
 Any number of select clients (07/client.c, str_cli) on the forking server (07/server.c,
 main01).  Every system call of every client, every step of the parent and its handler, and
 every step of every child is a step, so a run is one interleaving of them all.
 */
module ForkFleet {
  import opened Bytes
  import opened EchoLink
  import opened Runs
  import opened Clients
  import Relay
  import ForkServer

  // The first |server.conns| clients have been accepted, in order.
  datatype State = State(server: ForkServer.State, clients: seq<Relay.State>)

  function Start(inputs: seq<seq<byte>>): State {
    State(ForkServer.Start(false), StartAll(inputs))
  }

  datatype Action = OfClient(i: nat, a: Relay.Action) | OfServer(b: ForkServer.Action)

  // accept takes the next client's connection as it is; no read of a child fails.
  predicate Enabled(s: State, a: Action) {
    match a
    case OfClient(i, b) => i < |s.clients| && !b.Server? && Relay.Enabled(s.clients[i], b)
    case OfServer(b) =>
      && !b.Client? && !b.Fail? && ForkServer.Enabled(s.server, b)
      && (b.Accept? ==> |s.server.conns| < |s.clients| && b.l == s.clients[|s.server.conns|].link)
  }

  // What a client sees of its connection.
  function Seen(r: Relay.State, conns: seq<Link>, i: nat): Relay.State {
    if i < |conns| then r.(link := conns[i]) else r
  }

  function Step(s: State, a: Action): State
    requires Enabled(s, a)
  {
    match a
    case OfClient(i, b) =>
      var r := Relay.Step(s.clients[i], b);
      State(if i < |s.server.conns| then s.server.(conns := s.server.conns[i := r.link]) else s.server,
            s.clients[i := r])
    case OfServer(b) =>
      var t := ForkServer.Step(s.server, b);
      State(t, seq(|s.clients|, i requires 0 <= i < |s.clients| => Seen(s.clients[i], t.conns, i)))
  }

  /* ----- what every step keeps ----- */

  ghost predicate ClientOk(s: State, i: nat)
    requires i < |s.clients|
  {
    && Relay.Inv(s.clients[i]) && s.clients[i].halfClose
    && (if i < |s.server.conns| then s.server.conns[i] == s.clients[i].link
        else ForkServer.Untouched(s.clients[i].link))
  }

  ghost predicate NoneFailed(t: ForkServer.State) {
    forall i | 0 <= i < |t.kids| :: !t.kids[i].failed
  }

  ghost predicate Inv(s: State) {
    && ForkServer.Inv(s.server) && !s.server.single && NoneFailed(s.server)
    && |s.server.conns| <= |s.clients|
    && forall i | 0 <= i < |s.clients| :: ClientOk(s, i)
  }

  lemma StartOk(inputs: seq<seq<byte>>)
    ensures Inv(Start(inputs))
  {
  }

  // A call of a client is a step of the client in the forking server's own relation.
  lemma ClientIsClient(r: Relay.State, b: Relay.Action)
    requires Relay.Inv(r) && !b.Server? && Relay.Enabled(r, b)
    ensures ForkServer.ClientStep(r.link, Relay.Step(r, b).link)
    ensures ForkServer.Untouched(r.link) ==> ForkServer.Untouched(Relay.Step(r, b).link)
  {
    hide Relay.Inv, ForkServer.ClientStep;
    if b.WriteSock? || b.Shutdown? {
      BeforeFin(r);
    }
    ForkServer.ClientSteps(r.link, if b.WriteSock? then r.pc.sbuf else [], if b.ReadSock? then b.n else 0);
  }

  lemma OfClientKeeps(s: State, i: nat, b: Relay.Action)
    requires Inv(s) && Enabled(s, OfClient(i, b))
    ensures Inv(Step(s, OfClient(i, b)))
  {
    hide Relay.Inv, ForkServer.Inv, Relay.Step, Relay.Enabled, ForkServer.ClientStep, ForkServer.Untouched;
    var r := s.clients[i];
    assert ClientOk(s, i);
    ClientIsClient(r, b);
    Relay.StepKeeps(r, b);
    if i < |s.server.conns| {
      ForkServer.StepKeeps(s.server, ForkServer.Client(i, Relay.Step(r, b).link));
    }
    forall k | 0 <= k < |s.clients| ensures ClientOk(Step(s, OfClient(i, b)), k) {
      assert ClientOk(s, k);
    }
  }

  lemma ServerKeepsKids(t: ForkServer.State, b: ForkServer.Action)
    requires NoneFailed(t) && ForkServer.Enabled(t, b) && !b.Fail?
    ensures var u := ForkServer.Step(t, b);
            && NoneFailed(u) && u.single == t.single
            && |u.conns| == |t.conns| + (if b.Accept? then 1 else 0)
            && (b.Accept? ==> u.conns == t.conns + [b.l])
  {
  }

  // A step of the server leaves a client alone, or is one of its own server's steps.
  lemma OfServerStep(s: State, b: ForkServer.Action, i: nat) returns (idle: bool, c: ServerStep)
    requires Inv(s) && Enabled(s, OfServer(b)) && i < |s.clients|
    ensures var r, t := s.clients[i], Step(s, OfServer(b));
            if idle then t.clients[i] == r
            else Relay.Enabled(r, Relay.Server(c)) && t.clients[i] == Relay.Step(r, Relay.Server(c))
    ensures b.Echo? && b.i == i ==> !idle
  {
    hide Relay.Inv, ForkServer.Inv, ForkServer.Step, ForkServer.Enabled, ForkServer.ClientStep;
    assert ClientOk(s, i);
    var t := ForkServer.Step(s.server, b);
    ServerKeepsKids(s.server, b);
    idle, c := true, Shut;
    if b.Echo? && b.i == i {
      ForkServer.EchoShows(s.server, i, b.a);
      idle, c := false, b.a;
    } else if i < |s.server.conns| {
      ForkServer.StepIsLinkStep(s.server, b, i);
      if t.conns[i] != s.server.conns[i] {
        idle := false;
        c :| CanServe(s.server.conns[i], c) && t.conns[i] == Served(s.server.conns[i], c);
      }
    }
  }

  lemma OfServerKeeps(s: State, b: ForkServer.Action)
    requires Inv(s) && Enabled(s, OfServer(b))
    ensures Inv(Step(s, OfServer(b)))
  {
    hide Relay.Inv, ForkServer.Inv, ForkServer.Step, ForkServer.Enabled, Relay.Step, Relay.Enabled;
    ForkServer.StepKeeps(s.server, b);
    ServerKeepsKids(s.server, b);
    forall i | 0 <= i < |s.clients| ensures ClientOk(Step(s, OfServer(b)), i) {
      assert ClientOk(s, i);
      var idle, c := OfServerStep(s, b, i);
      if !idle {
        Relay.StepKeeps(s.clients[i], Relay.Server(c));
      }
    }
  }

  lemma StepKeeps(s: State, a: Action)
    requires Inv(s) && Enabled(s, a)
    ensures Inv(Step(s, a)) && Inputs(Step(s, a).clients) == Inputs(s.clients)
  {
    hide Inv, ForkServer.Step, ForkServer.Enabled;
    match a
    case OfClient(i, b) => OfClientKeeps(s, i, b);
    case OfServer(b) => OfServerKeeps(s, b);
  }

  lemma RunKeeps(s: State, run: seq<Action>)
    requires Inv(s) && IsRun(Enabled, Step, s, run)
    ensures var t := End(Enabled, Step, s, run); Inv(t) && Inputs(t.clients) == Inputs(s.clients)
  {
    var same := (t: State) => Inv(t) && Inputs(t.clients) == Inputs(s.clients);
    forall t, a | same(t) && Enabled(t, a) ensures same(Step(t, a)) {
      StepKeeps(t, a);
    }
    Always(Enabled, Step, same, s, run);
  }

  /* ----- progress ----- */

  ghost function KidWork(k: ForkServer.Child): nat {
    match k.life case Starting => 6 case Echoing => 5 case Zombie => 1 case Reaped => 0
  }

  ghost function KidsWork(kids: seq<ForkServer.Child>): nat {
    if kids == [] then 0 else KidsWork(kids[..|kids| - 1]) + KidWork(kids[|kids| - 1])
  }

  lemma {:induction false} KidsUpdate(kids: seq<ForkServer.Child>, i: nat, k: ForkServer.Child)
    requires i < |kids|
    ensures KidsWork(kids[i := k]) + KidWork(kids[i]) == KidsWork(kids) + KidWork(k)
  {
    var n := |kids| - 1;
    if i == n {
      assert kids[i := k][..n] == kids[..n];
    } else {
      assert kids[i := k][..n] == kids[..n][i := k];
      KidsUpdate(kids[..n], i, k);
    }
  }

  // What the processes of the server still have to do, beside echoing.
  ghost function ServerWork(t: ForkServer.State): nat {
    KidsWork(t.kids)
    + (match t.parent case Accepting => 0 case Forking(_) => 8 case Closing(_) => 1)
    + (match t.handler case Idle => 0 case Looping => 2 case Returning => 1)
    + (if t.pending then 3 else 0)
  }

  // The work of all clients, of the server's processes, and the connections to be accepted.
  ghost function Work(s: State): int {
    WorkOf(s.clients) + ServerWork(s.server) + 9 * (|s.clients| - |s.server.conns|)
  }

  lemma ServerWorks(t: ForkServer.State, b: ForkServer.Action)
    requires ForkServer.Enabled(t, b) && !b.Client? && !b.Fail? && !t.single
    ensures var u := ForkServer.Step(t, b);
            if b.Echo? then ServerWork(u) == ServerWork(t) && |u.conns| == |t.conns|
            else ServerWork(u) - 9 * |u.conns| < ServerWork(t) - 9 * |t.conns|
  {
    hide CanServe, Served, ForkServer.Refs;
    var u := ForkServer.Step(t, b);
    match b
    case Fork => assert u.kids[..|t.kids|] == t.kids;
    case Wait(i) => KidsUpdate(t.kids, i, u.kids[i]);
    case CloseListen(i) => KidsUpdate(t.kids, i, u.kids[i]);
    case Exit(i) => KidsUpdate(t.kids, i, u.kids[i]);
    case _ =>
  }

  lemma StepWorks(s: State, a: Action)
    requires Inv(s) && Enabled(s, a)
    ensures 0 <= Work(Step(s, a)) < Work(s)
  {
    hide ForkServer.Inv, ForkServer.Step, ForkServer.Enabled, Relay.Inv, Relay.Step, Relay.Work, ServerWork, WorkOf;
    StepKeeps(s, a);
    var t := Step(s, a);
    match a
    case OfClient(i, b) =>
      assert ClientOk(s, i);
      Relay.StepWorks(s.clients[i], b);
      WorkFalls(s.clients, t.clients, i);
      SameServerWork(s.server, t.server);
    case OfServer(b) =>
      ServerWorks(s.server, b);
      forall i | 0 <= i < |s.clients|
        ensures Relay.Work(t.clients[i]) <= Relay.Work(s.clients[i])
        ensures b.Echo? && b.i == i ==> Relay.Work(t.clients[i]) < Relay.Work(s.clients[i])
      {
        assert ClientOk(s, i);
        var idle, c := OfServerStep(s, b, i);
        if !idle {
          Relay.StepWorks(s.clients[i], Relay.Server(c));
        }
      }
      if b.Echo? {
        ForkServer.EchoShows(s.server, b.i, b.a);
        WorkFalls(s.clients, t.clients, b.i);
      } else {
        WorkFalls(s.clients, t.clients, 0);
      }
  }

  lemma SameServerWork(t: ForkServer.State, u: ForkServer.State)
    requires u == t.(conns := u.conns)
    ensures ServerWork(u) == ServerWork(t)
  {
  }

  ghost function Left(s: State): nat {
    if Work(s) >= 0 then Work(s) else 0
  }

  lemma RunWorks(s: State, run: seq<Action>)
    requires Inv(s) && IsRun(Enabled, Step, s, run)
    ensures |run| <= Left(s)
  {
    forall t, a | Inv(t) && Enabled(t, a) ensures Inv(Step(t, a)) && Left(Step(t, a)) < Left(t) {
      StepKeeps(t, a);
      StepWorks(t, a);
    }
    Bounded(Enabled, Step, Inv, Left, s, run);
  }

  /* ----- no deadlock ----- */

  // When no process of the server has anything to do but to echo.
  ghost predicate Resting(t: ForkServer.State) {
    && t.parent == ForkServer.Accepting && t.handler == ForkServer.Idle && !t.pending
    && forall i | 0 <= i < |t.kids| :: t.kids[i].life == ForkServer.Echoing || t.kids[i].life == ForkServer.Reaped
  }

  lemma ServerMoves(t: ForkServer.State) returns (b: ForkServer.Action)
    requires ForkServer.Inv(t) && !t.single && !Resting(t)
    ensures ForkServer.Enabled(t, b) && !b.Client? && !b.Fail? && !b.Accept?
  {
    hide ForkServer.ConnOk, ForkServer.KidOk;
    if t.handler == ForkServer.Looping {
      if i :| 0 <= i < |t.kids| && t.kids[i].life == ForkServer.Zombie {
        b := ForkServer.Wait(i);
      } else {
        b := ForkServer.WaitNone;
      }
    } else if t.handler == ForkServer.Returning {
      b := ForkServer.Return;
    } else if t.pending {
      b := ForkServer.Interrupt;
    } else if t.parent.Forking? {
      b := ForkServer.Fork;
    } else if t.parent.Closing? {
      b := ForkServer.CloseConn;
    } else {
      var i :| 0 <= i < |t.kids| && t.kids[i].life != ForkServer.Echoing && t.kids[i].life != ForkServer.Reaped;
      b := ForkServer.CloseListen(i);
    }
  }

  // A child whose connection is open serves it when it can be served.
  lemma ChildMoves(t: ForkServer.State, i: nat, c: ServerStep) returns (b: ForkServer.Action)
    requires ForkServer.Inv(t) && NoneFailed(t) && Resting(t) && i < |t.conns| && CanServe(t.conns[i], c)
    ensures ForkServer.Enabled(t, b) && !b.Client? && !b.Fail? && !b.Accept?
  {
    assert ForkServer.ConnOk(t, i) && ForkServer.KidOk(t.kids[i], i);
    b := if c.Shut? then ForkServer.Exit(i) else ForkServer.Echo(i, c);
  }

  // No deadlock: nothing can move only when every client has returned, and then every child has
  // exited and been waited for, no signal is pending, and the parent waits in accept.
  lemma StuckMeansReturned(s: State)
    requires Inv(s) && forall a :: !Enabled(s, a)
    ensures |s.server.conns| == |s.clients|
    ensures forall i | 0 <= i < |s.clients| :: s.clients[i].pc == Relay.Returned
    ensures Resting(s.server) && forall i | 0 <= i < |s.server.kids| :: s.server.kids[i].life == ForkServer.Reaped
  {
    hide ForkServer.Inv, ForkServer.Enabled, Relay.Inv, Relay.Enabled;
    if !Resting(s.server) {
      ProcessMoves(s);
    } else if |s.server.conns| < |s.clients| {
      AcceptMoves(s);
    } else {
      forall i | 0 <= i < |s.clients| ensures s.clients[i].pc == Relay.Returned {
        if s.clients[i].pc != Relay.Returned {
          ClientMoves(s, i);
        }
      }
      AllReaped(s);
    }
  }

  lemma ProcessMoves(s: State)
    requires Inv(s) && !Resting(s.server)
    ensures exists a :: Enabled(s, a)
  {
    var b := ServerMoves(s.server);
    assert Enabled(s, OfServer(b));
  }

  lemma AcceptMoves(s: State)
    requires Inv(s) && Resting(s.server) && |s.server.conns| < |s.clients|
    ensures exists a :: Enabled(s, a)
  {
    assert ClientOk(s, |s.server.conns|);
    assert Enabled(s, OfServer(ForkServer.Accept(s.clients[|s.server.conns|].link)));
  }

  lemma ClientMoves(s: State, i: nat)
    requires Inv(s) && Resting(s.server) && i < |s.clients| == |s.server.conns| && s.clients[i].pc != Relay.Returned
    ensures exists a :: Enabled(s, a)
  {
    hide ForkServer.Inv, ForkServer.Enabled, Relay.Inv;
    assert ClientOk(s, i);
    var b := SomeMove(s.clients[i]);
    if b.Server? {
      var d := ChildMoves(s.server, i, b.a);
      assert Enabled(s, OfServer(d));
    } else {
      assert Enabled(s, OfClient(i, b));
    }
  }

  lemma AllReaped(s: State)
    requires Inv(s) && Resting(s.server) && |s.server.conns| == |s.clients|
    requires forall i | 0 <= i < |s.clients| :: s.clients[i].pc == Relay.Returned
    ensures forall i | 0 <= i < |s.server.kids| :: s.server.kids[i].life == ForkServer.Reaped
  {
    forall i | 0 <= i < |s.server.kids| ensures s.server.kids[i].life == ForkServer.Reaped {
      assert ClientOk(s, i) && ForkServer.ConnOk(s.server, i);
    }
  }

  // Total correctness of the whole system: however clients, parent, handler and children are
  // scheduled, no client finds the server terminated prematurely, every output is a prefix of
  // its own stdin, every run is bounded, and a run that cannot be extended has returned
  // every client with its own stdin as output and left no child unreaped and no signal pending.
  lemma TotalCorrectness(inputs: seq<seq<byte>>, run: seq<Action>)
    requires IsRun(Enabled, Step, Start(inputs), run)
    ensures |run| <= 12 * Total(inputs) + 22 * |inputs|
    ensures var t := End(Enabled, Step, Start(inputs), run);
            && |t.clients| == |inputs|
            && (forall i | 0 <= i < |inputs| ::
                  t.clients[i].pc != Relay.Died && t.clients[i].output <= inputs[i])
            && ((forall a :: !Enabled(t, a)) ==>
                  && (forall i | 0 <= i < |inputs| ::
                        t.clients[i].pc == Relay.Returned && t.clients[i].output == inputs[i])
                  && |t.server.kids| == |inputs| && !t.server.pending && t.server.handler == ForkServer.Idle
                  && (forall i | 0 <= i < |inputs| :: t.server.kids[i].life == ForkServer.Reaped))
  {
    hide IsRun, End, Inv, Enabled, Step, WorkOf, Relay.Inv, Relay.Start;
    var s := Start(inputs);
    StartOk(inputs);
    StartWorks(inputs);
    RunKeeps(s, run);
    RunWorks(s, run);
    var t := End(Enabled, Step, s, run);
    assert |t.clients| == |Inputs(t.clients)| == |Inputs(s.clients)| == |inputs|;
    forall i | 0 <= i < |inputs|
      ensures t.clients[i].pc != Relay.Died && t.clients[i].output <= inputs[i]
      ensures t.clients[i].pc == Relay.Returned ==> t.clients[i].output == inputs[i]
    {
      ClientSound(t, i);
      Relay.StartOk(true, inputs[i]);
      assert t.clients[i].input == Inputs(t.clients)[i] == Inputs(s.clients)[i] == inputs[i];
    }
    if forall a :: !Enabled(t, a) {
      StuckMeansReturned(t);
      KidsWhenResting(t);
    }
  }

  lemma ClientSound(s: State, i: nat)
    requires Inv(s) && i < |s.clients|
    ensures var r := s.clients[i];
            r.pc != Relay.Died && r.output <= r.input && (r.pc == Relay.Returned ==> r.output == r.input)
  {
    hide Relay.Inv;
    assert ClientOk(s, i);
    Relay.AtTheEnd(s.clients[i]);
  }

  lemma KidsWhenResting(s: State)
    requires Inv(s) && Resting(s.server)
    ensures |s.server.kids| == |s.server.conns|
  {
  }

  // The server's part of a run is a run of the forking server, so what is proved of all its runs
  // holds here.
  lemma {:induction false} ServerRun(s: State, run: seq<Action>) returns (part: seq<ForkServer.Action>)
    requires Inv(s) && IsRun(Enabled, Step, s, run)
    ensures IsRun(ForkServer.Enabled, ForkServer.Step, s.server, part)
    ensures End(ForkServer.Enabled, ForkServer.Step, s.server, part) == End(Enabled, Step, s, run).server
    decreases |run|
  {
    if run == [] {
      part := [];
    } else {
      StepKeeps(s, run[0]);
      hide Inv, ForkServer.Enabled, ForkServer.Step, Enabled;
      var rest := ServerRun(Step(s, run[0]), run[1..]);
      var here := ServerStep(s, run[0]);
      if here == [] {
        part := rest;
      } else {
        part := here + rest;
        assert part[1..] == rest;
      }
    }
  }

  // The server's part of one step: nothing, or one step of its own relation.
  lemma ServerStep(s: State, a: Action) returns (here: seq<ForkServer.Action>)
    requires Inv(s) && Enabled(s, a)
    ensures |here| <= 1 && (here == [] ==> Step(s, a).server == s.server)
    ensures here != [] ==> ForkServer.Enabled(s.server, here[0])
                           && Step(s, a).server == ForkServer.Step(s.server, here[0])
  {
    hide Relay.Inv, Relay.Step, Relay.Enabled, ForkServer.ClientStep, ForkServer.Inv;
    here := [];
    match a
    case OfServer(b) => here := [b];
    case OfClient(i, b) =>
      if i < |s.server.conns| {
        assert ClientOk(s, i);
        ClientIsClient(s.clients[i], b);
        here := [ForkServer.Client(i, Relay.Step(s.clients[i], b).link)];
      }
  }

  /* ----- the processes of the server keep every freedom they have ----- */

  // A connection whose client has sent all of its input and its FIN.
  function Whole(input: seq<byte>): Link {
    Link(input, true, [], false, [])
  }

  // Steps of the server's processes, without failing reads, that accept these clients in order,
  // beginning with the k-th.
  ghost predicate Serves(part: seq<ForkServer.Action>, inputs: seq<seq<byte>>, k: nat)
    decreases |part|
  {
    part == []
    || (&& !part[0].Client? && !part[0].Fail?
        && (part[0].Accept? ==> k < |inputs| && part[0].l == Whole(inputs[k]))
        && Serves(part[1..], inputs, if part[0].Accept? then k + 1 else k))
  }

  lemma {:induction false} SendOne(s0: State, run0: seq<Action>, i: nat) returns (run: seq<Action>)
    requires IsRun(Enabled, Step, s0, run0)
    requires var s := End(Enabled, Step, s0, run0);
             && i < |s.clients| && s.server.conns == [] && Relay.Inv(s.clients[i]) && s.clients[i].halfClose
             && s.clients[i].pc == Relay.AtSelect && !s.clients[i].eof
             && s.clients[i].link == FRESH.(up := s.clients[i].link.up) && s.clients[i].output == []
    ensures IsRun(Enabled, Step, s0, run)
    ensures var s, t := End(Enabled, Step, s0, run0), End(Enabled, Step, s0, run);
            && |t.clients| == |s.clients| && t == s.(clients := s.clients[i := t.clients[i]])
            && t.clients[i].link == Whole(s.clients[i].input)
    decreases |End(Enabled, Step, s0, run0).clients[i].unread|
  {
    hide IsRun, End, Relay.Inv;
    var r := End(Enabled, Step, s0, run0).clients[i];
    SendSteps(r);
    run := Extend(Enabled, Step, s0, run0, OfClient(i, Relay.Select(false, true)));
    run := Extend(Enabled, Step, s0, run, OfClient(i, Relay.ReadStdin(Min(1, |r.unread|))));
    if r.unread == [] {
      run := Extend(Enabled, Step, s0, run, OfClient(i, Relay.Shutdown));
    } else {
      run := Extend(Enabled, Step, s0, run, OfClient(i, Relay.WriteSock));
      run := SendOne(s0, run, i);
    }
  }

  // One byte more is sent, or there is none.
  lemma SendSteps(r: Relay.State)
    requires Relay.Inv(r) && r.halfClose && r.pc == Relay.AtSelect && !r.eof
    requires r.link == FRESH.(up := r.link.up) && r.output == []
    ensures r.unread == [] ==> r.link.up == r.input
    ensures Relay.Enabled(r, Relay.Select(false, true))
    ensures var r1 := Relay.Step(r, Relay.Select(false, true));
            var read := Relay.ReadStdin(Min(1, |r.unread|));
            && Relay.Enabled(r1, read)
            && (r.unread != [] ==> && Relay.Enabled(Relay.Step(r1, read), Relay.WriteSock)
                                   && Relay.Inv(Relay.Step(Relay.Step(r1, read), Relay.WriteSock)))
  {
    var r1 := Relay.Step(r, Relay.Select(false, true));
    var read := Relay.ReadStdin(Min(1, |r.unread|));
    Relay.StepKeeps(r, Relay.Select(false, true));
    Relay.StepKeeps(r1, read);
    if r.unread != [] {
      Relay.StepKeeps(Relay.Step(r1, read), Relay.WriteSock);
    }
  }

  lemma {:induction false} SendAll(inputs: seq<seq<byte>>, k: nat) returns (run: seq<Action>)
    requires k <= |inputs|
    ensures IsRun(Enabled, Step, Start(inputs), run)
    ensures var t := End(Enabled, Step, Start(inputs), run);
            && |t.clients| == |inputs| && t.server == ForkServer.Start(false)
            && (forall i | 0 <= i < k :: t.clients[i].link == Whole(inputs[i]))
            && (forall i | k <= i < |inputs| :: t.clients[i] == Relay.Start(true, inputs[i]))
  {
    if k == 0 {
      run := [];
    } else {
      run := SendAll(inputs, k - 1);
      Relay.StartOk(true, inputs[k - 1]);
      hide IsRun, End, Relay.Inv;
      run := SendOne(Start(inputs), run, k - 1);
    }
  }

  lemma {:induction false} ServePart(
      s0: State, run0: seq<Action>, inputs: seq<seq<byte>>, part: seq<ForkServer.Action>)
    returns (run: seq<Action>)
    requires IsRun(Enabled, Step, s0, run0)
    requires var s := End(Enabled, Step, s0, run0);
             && |s.clients| == |inputs| && Serves(part, inputs, |s.server.conns|)
             && IsRun(ForkServer.Enabled, ForkServer.Step, s.server, part) && NoneFailed(s.server)
             && forall i | |s.server.conns| <= i < |inputs| :: s.clients[i].link == Whole(inputs[i])
    ensures IsRun(Enabled, Step, s0, run)
    ensures End(Enabled, Step, s0, run).server
         == End(ForkServer.Enabled, ForkServer.Step, End(Enabled, Step, s0, run0).server, part)
    decreases |part|
  {
    run := run0;
    if part != [] {
      hide ForkServer.Enabled, ForkServer.Step;
      var s := End(Enabled, Step, s0, run0);
      ServerKeepsKids(s.server, part[0]);
      run := Extend(Enabled, Step, s0, run0, OfServer(part[0]));
      run := ServePart(s0, run, inputs, part[1..]);
    }
  }

  // Whatever the parent, its handler and the children can do to clients that have sent all they
  // have, they can do it to these: every such run of the forking server is the server's part of a
  // run with clients.
  lemma EveryServerRun(inputs: seq<seq<byte>>, part: seq<ForkServer.Action>) returns (run: seq<Action>)
    requires Serves(part, inputs, 0) && IsRun(ForkServer.Enabled, ForkServer.Step, ForkServer.Start(false), part)
    ensures IsRun(Enabled, Step, Start(inputs), run)
    ensures End(Enabled, Step, Start(inputs), run).server
         == End(ForkServer.Enabled, ForkServer.Step, ForkServer.Start(false), part)
  {
    run := SendAll(inputs, |inputs|);
    run := ServePart(Start(inputs), run, inputs, part);
  }
}
