/**
 The forking server (07/server.c: main01, sig_chld, str_echo): a parent that accepts, forks and
 closes, a SIGCHLD handler that may interrupt it anywhere, one child per connection, and
 the clients.  Signals do not queue, and fork copies every open descriptor.  A run is one
 interleaving of all of them.
 */
module ForkServer {
  import opened Bytes
  import opened EchoLink
  import opened Runs

  // What a descriptor stands for: the listening socket, or the c-th accepted connection.
  datatype Sock = Listen | Conn(c: nat)

  datatype Life = Starting | Echoing | Zombie | Reaped

  // One child process, with the descriptors it holds and the connection it was forked for; failed
  // says that it has left str_echo because a read reported an error.
  datatype Child = Child(fds: set<Sock>, life: Life, conn: nat, failed: bool)

  datatype ParentPc = Accepting | Forking(c: nat) | Closing(c: nat)

  // sig_chld: not running, before a waitpid, or about to return.
  datatype Handler = Idle | Looping | Returning

  datatype State = State(
    single: bool,          // the commented-out variant that calls wait once
    parent: ParentPc, fds: set<Sock>,
    pending: bool, handler: Handler,
    kids: seq<Child>,
    conns: seq<Link>)

  function Start(single: bool): State {
    State(single, Accepting, {Listen}, false, Idle, [], [])
  }

  datatype Action =
    | Accept(l: Link) | Fork | CloseConn
    | Interrupt | Wait(i: nat) | WaitNone | Return
    | CloseListen(i: nat) | Echo(i: nat, a: ServerStep) | Exit(i: nat) | Fail(i: nat)
    | Client(c: nat, l: Link)

  // What a client can do to its connection: send, shut down, or receive.
  predicate ClientStep(l: Link, l': Link) {
    || (!l.fin && l.up <= l'.up && l' == l.(up := l'.up))
    || (!l.fin && l' == l.(fin := true))
    || (|l'.down| <= |l.down| && l' == l.(down := l.down[|l.down| - |l'.down|..]))
  }

  // Sending, shutting down, receiving and doing nothing are what a client can do.
  lemma ClientSteps(l: Link, data: seq<byte>, n: nat)
    requires n <= |l.down|
    ensures !l.fin ==> ClientStep(l, l.(up := l.up + data)) && ClientStep(l, l.(fin := true))
    ensures ClientStep(l, l.(down := l.down[n..])) && ClientStep(l, l)
  {
    assert l.down[0..] == l.down;
    assert |l.down| - |l.down[n..]| == n;
  }

  // A connection the server has not accepted, to which the client may already have sent.
  predicate Untouched(l: Link) {
    l.held == [] && l.down == [] && !l.closed
  }

  predicate Enabled(s: State, a: Action) {
    match a
    case Accept(l) => s.handler == Idle && s.parent == Accepting && Untouched(l)
    case Fork => s.handler == Idle && s.parent.Forking?
    case CloseConn => s.handler == Idle && s.parent.Closing?
    case Interrupt => s.handler == Idle && s.pending
    case Wait(i) => s.handler == Looping && i < |s.kids| && s.kids[i].life == Zombie
    case WaitNone => s.handler == Looping && forall i | 0 <= i < |s.kids| :: s.kids[i].life != Zombie
    case Return => s.handler == Returning
    case CloseListen(i) => i < |s.kids| && s.kids[i].life == Starting
    case Echo(i, b) =>
      i < |s.kids| && s.kids[i].life == Echoing && s.kids[i].conn < |s.conns|
      && CanServe(s.conns[s.kids[i].conn], b) && !b.Shut?
    case Exit(i) =>
      i < |s.kids| && s.kids[i].life == Echoing && s.kids[i].conn < |s.conns|
      && CanServe(s.conns[s.kids[i].conn], Shut)
    case Fail(i) =>
      i < |s.kids| && s.kids[i].life == Echoing && s.kids[i].conn < |s.conns|
      && s.conns[s.kids[i].conn].held == []
    case Client(c, l) => c < |s.conns| && ClientStep(s.conns[c], l)
  }

  /* ----- reference counts ----- */

  function KidRefs(kids: seq<Child>, x: Sock): nat {
    if kids == [] then 0
    else KidRefs(kids[..|kids| - 1], x) + (if x in kids[|kids| - 1].fds then 1 else 0)
  }

  // How many processes hold socket x.
  function Refs(s: State, x: Sock): nat {
    (if x in s.fds then 1 else 0) + KidRefs(s.kids, x)
  }

  // The kernel closes every connection that no process holds any more.
  function Settled(s: State): (t: State)
    ensures t == s.(conns := t.conns) && |t.conns| == |s.conns|
  {
    s.(conns := seq(|s.conns|, c requires 0 <= c < |s.conns| =>
                      s.conns[c].(closed := s.conns[c].closed || Refs(s, Conn(c)) == 0)))
  }

  // exit closes all the child's descriptors and raises SIGCHLD; signals do not queue.
  function Exited(s: State, i: nat, failed: bool): State
    requires i < |s.kids|
  {
    Settled(s.(kids := s.kids[i := s.kids[i].(life := Zombie, fds := {}, failed := failed)], pending := true))
  }

  function Step(s: State, a: Action): State
    requires Enabled(s, a)
  {
    match a
    case Accept(l) =>
      s.(conns := s.conns + [l], fds := s.fds + {Conn(|s.conns|)}, parent := Forking(|s.conns|))
    case Fork => s.(kids := s.kids + [Child(s.fds, Starting, s.parent.c, false)], parent := Closing(s.parent.c))
    case CloseConn => Settled(s.(fds := s.fds - {Conn(s.parent.c)}, parent := Accepting))
    case Interrupt => s.(pending := false, handler := Looping)
    case Wait(i) =>
      s.(kids := s.kids[i := s.kids[i].(life := Reaped)], handler := if s.single then Returning else Looping)
    case WaitNone => s.(handler := Returning)
    case Return => s.(handler := Idle)
    case CloseListen(i) =>
      s.(kids := s.kids[i := s.kids[i].(life := Echoing, fds := s.kids[i].fds - {Listen})])
    case Echo(i, b) =>
      s.(conns := s.conns[s.kids[i].conn := Served(s.conns[s.kids[i].conn], b)])
    case Exit(i) => Exited(s, i, false)
    case Fail(i) => Exited(s, i, true)
    case Client(c, l) => s.(conns := s.conns[c := l])
  }

  /* ----- what every step keeps ----- */

  predicate Gone(k: Child) {
    k.life == Zombie || k.life == Reaped
  }

  // Child i was forked for connection i, and holds nothing of any other client.
  ghost predicate KidOk(k: Child, i: nat) {
    && k.conn == i && (k.failed ==> Gone(k))
    && k.fds == (match k.life
                 case Starting => {Listen, Conn(i)}
                 case Echoing => {Conn(i)}
                 case _ => {})
  }

  // The connection is closed to its client exactly when its child is gone and the parent has
  // closed its own copy; and by then everything has been echoed, unless a read from it failed.
  ghost predicate ConnOk(s: State, c: nat)
    requires c < |s.conns|
  {
    && (s.conns[c].closed <==> c < |s.kids| && Gone(s.kids[c]) && s.parent != Closing(c))
    && (c < |s.kids| && Gone(s.kids[c]) && !s.kids[c].failed ==>
          s.conns[c].fin && s.conns[c].up == [] && s.conns[c].held == [])
  }

  ghost predicate Shape(s: State) {
    && |s.conns| == |s.kids| + (if s.parent.Forking? then 1 else 0)
    && s.fds == (if s.parent == Accepting then {Listen} else {Listen, Conn(s.parent.c)})
    && (s.parent.Forking? || s.parent.Closing? ==> s.parent.c == |s.conns| - 1)
    && (forall i | 0 <= i < |s.kids| :: KidOk(s.kids[i], i))
  }

  // A zombie has not been forgotten: a signal is pending, or the handler will look again.
  ghost predicate Remembered(s: State) {
    !s.single && (exists i :: 0 <= i < |s.kids| && s.kids[i].life == Zombie) ==> s.pending || s.handler == Looping
  }

  ghost predicate Inv(s: State) {
    Shape(s) && Remembered(s) && forall c | 0 <= c < |s.conns| :: ConnOk(s, c)
  }

  lemma {:induction false} KidRefsAre(kids: seq<Child>, c: nat)
    requires forall i | 0 <= i < |kids| :: KidOk(kids[i], i)
    ensures KidRefs(kids, Conn(c)) == if c < |kids| && !Gone(kids[c]) then 1 else 0
  {
    if kids != [] {
      KidRefsAre(kids[..|kids| - 1], c);
    }
  }

  lemma RefsAre(s: State, c: nat)
    requires Shape(s)
    ensures Refs(s, Conn(c)) == (if (s.parent.Forking? || s.parent.Closing?) && s.parent.c == c then 1 else 0)
                              + (if c < |s.kids| && !Gone(s.kids[c]) then 1 else 0)
  {
    KidRefsAre(s.kids, c);
  }

  lemma StepKeepsShape(s: State, a: Action)
    requires Inv(s) && Enabled(s, a)
    ensures Shape(Step(s, a))
  {
    hide ConnOk, Remembered, CanServe, Served, Refs, ClientStep;
  }

  lemma StepRemembers(s: State, a: Action)
    requires Inv(s) && Enabled(s, a)
    ensures Remembered(Step(s, a))
  {
    hide ConnOk, Shape, CanServe, Served, Refs, ClientStep;
    var t := Step(s, a);
    if i :| 0 <= i < |t.kids| && t.kids[i].life == Zombie {
      if i < |s.kids| && s.kids[i].life == Zombie {
        assert Remembered(s);
      }
    }
  }

  // A process has given up its descriptors, and the kernel closes what is left to nobody.
  lemma SettledConn(u: State, c: nat)
    requires Shape(u) && c < |u.conns|
    ensures Settled(u).conns[c] == u.conns[c].(closed := u.conns[c].closed ||
              (!((u.parent.Forking? || u.parent.Closing?) && u.parent.c == c) && !(c < |u.kids| && !Gone(u.kids[c]))))
  {
    RefsAre(u, c);
  }

  lemma CloseKeepsConn(s: State, c: nat)
    requires Inv(s) && Enabled(s, CloseConn) && c < |s.conns|
    ensures ConnOk(Step(s, CloseConn), c)
  {
    hide Remembered, Refs;
    StepKeepsShape(s, CloseConn);
    assert ConnOk(s, c);
    SettledConn(s.(fds := s.fds - {Conn(s.parent.c)}, parent := Accepting), c);
  }

  lemma ExitKeepsConn(s: State, i: nat, failed: bool, c: nat)
    requires Inv(s) && i < |s.kids| && s.kids[i].life == Echoing && i < |s.conns| && c < |s.conns|
    requires if failed then s.conns[i].held == [] else CanServe(s.conns[i], Shut)
    ensures ConnOk(Exited(s, i, failed), c)
  {
    hide Remembered, Refs;
    assert ConnOk(s, c) && KidOk(s.kids[i], i);
    SettledConn(s.(kids := s.kids[i := s.kids[i].(life := Zombie, fds := {}, failed := failed)], pending := true), c);
  }

  lemma EchoKeepsConn(s: State, i: nat, b: ServerStep, c: nat)
    requires Inv(s) && Enabled(s, Echo(i, b)) && c < |s.conns|
    ensures ConnOk(Step(s, Echo(i, b)), c)
  {
    hide Remembered;
    assert ConnOk(s, c) && KidOk(s.kids[i], i);
  }

  lemma StepKeepsConn(s: State, a: Action, c: nat)
    requires Inv(s) && Enabled(s, a) && c < |Step(s, a).conns|
    ensures ConnOk(Step(s, a), c)
  {
    hide Remembered, Settled, CanServe, Served;
    assert c < |s.conns| ==> ConnOk(s, c);
    match a
    case CloseConn => CloseKeepsConn(s, c);
    case Exit(i) =>
      assert KidOk(s.kids[i], i);
      ExitKeepsConn(s, i, false, c);
    case Fail(i) =>
      assert KidOk(s.kids[i], i);
      ExitKeepsConn(s, i, true, c);
    case Echo(i, b) => EchoKeepsConn(s, i, b, c);
    case _ =>
  }

  lemma StepKeeps(s: State, a: Action)
    requires Inv(s) && Enabled(s, a)
    ensures Inv(Step(s, a)) && Step(s, a).single == s.single
  {
    StepKeepsShape(s, a);
    StepRemembers(s, a);
    forall c | 0 <= c < |Step(s, a).conns| ensures ConnOk(Step(s, a), c) {
      StepKeepsConn(s, a, c);
    }
  }

  lemma RunKeeps(s: State, run: seq<Action>)
    requires Inv(s) && IsRun(Enabled, Step, s, run)
    ensures Inv(End(Enabled, Step, s, run)) && End(Enabled, Step, s, run).single == s.single
  {
    var same := (t: State) => Inv(t) && t.single == s.single;
    forall t, a | same(t) && Enabled(t, a) ensures same(Step(t, a)) {
      StepKeeps(t, a);
    }
    Always(Enabled, Step, same, s, run);
  }

  // Reaper completeness: in every interleaving, also when children exit during the handler and
  // their signals coalesce, a zombie implies that SIGCHLD is pending or that the handler will
  // call waitpid again.  So when neither is the case no zombie is left.
  lemma ReaperComplete(run: seq<Action>, i: nat)
    requires IsRun(Enabled, Step, Start(false), run) && i < |End(Enabled, Step, Start(false), run).kids|
    ensures var t := End(Enabled, Step, Start(false), run);
            t.kids[i].life == Zombie ==> t.pending || t.handler == Looping
  {
    RunKeeps(Start(false), run);
  }

  // Descriptor counting: no child holds another client's connection; a connection's reference
  // count is zero, and the connection closed to its client, exactly when its child is gone
  // and the parent has closed its copy.  So it is never closed while str_echo is running,
  // and by the time it is closed all that the client sent before its FIN has been echoed, unless
  // a read from it failed.
  lemma DescriptorsCounted(single: bool, run: seq<Action>, c: nat)
    requires IsRun(Enabled, Step, Start(single), run) && c < |End(Enabled, Step, Start(single), run).conns|
    ensures var t := End(Enabled, Step, Start(single), run);
            && (forall i | 0 <= i < |t.kids| && Conn(c) in t.kids[i].fds :: i == c)
            && (Refs(t, Conn(c)) == 0 <==> c < |t.kids| && Gone(t.kids[c]) && t.parent != Closing(c))
            && (t.conns[c].closed <==> Refs(t, Conn(c)) == 0)
            && (t.conns[c].closed && !t.kids[c].failed ==>
                  t.conns[c].fin && t.conns[c].up == [] && t.conns[c].held == [])
  {
    RunKeeps(Start(single), run);
    var t := End(Enabled, Step, Start(single), run);
    RefsAre(t, c);
    assert ConnOk(t, c);
    forall i | 0 <= i < |t.kids| && Conn(c) in t.kids[i].fds ensures i == c {
      assert KidOk(t.kids[i], i);
    }
  }

  // To its client, each connection of the forking server is one connection to the echo server:
  // every step leaves it alone, is a step of the client, or is a step of EchoLink's server; only
  // after a failed read is it closed without that.
  lemma StepIsLinkStep(s: State, a: Action, c: nat)
    requires Inv(s) && Enabled(s, a) && c < |s.conns|
    ensures var l, l' := s.conns[c], Step(s, a).conns[c];
            if a.Client? then l' == l || ClientStep(l, l')
            else || l' == l || (exists b :: CanServe(l, b) && l' == Served(l, b))
                 || (c < |Step(s, a).kids| && Step(s, a).kids[c].failed && l' == l.(closed := true))
  {
    StepKeeps(s, a);
    var t := Step(s, a);
    assert ConnOk(s, c) && ConnOk(t, c);
    match a
    case CloseConn =>
      if t.conns[c].closed && !s.conns[c].closed && !t.kids[c].failed {
        assert CanServe(s.conns[c], Shut) && t.conns[c] == Served(s.conns[c], Shut);
      }
    case Exit(i) =>
      if t.conns[c].closed && !s.conns[c].closed {
        assert CanServe(s.conns[c], Shut) && t.conns[c] == Served(s.conns[c], Shut);
      }
    case Fail(i) =>
      if t.conns[c].closed && !s.conns[c].closed {
        assert c == i && t.kids[c].failed;
      }
    case Echo(i, b) =>
      assert i == c ==> CanServe(s.conns[c], b) && t.conns[c] == Served(s.conns[c], b);
    case _ =>
  }

  // str_echo works on the connection the child was forked for, and on no other.
  lemma EchoShows(s: State, i: nat, b: ServerStep)
    requires Inv(s) && Enabled(s, Echo(i, b))
    ensures i < |s.conns| && CanServe(s.conns[i], b)
    ensures Step(s, Echo(i, b)).conns == s.conns[i := Served(s.conns[i], b)]
  {
    assert KidOk(s.kids[i], i);
  }

  /* ----- why one wait is not enough ----- */

  // One more client connects, and the parent is back at accept.
  function WithChild(s: State): State {
    s.(conns := s.conns + [FRESH],
       kids := s.kids + [Child({Listen, Conn(|s.conns|)}, Starting, |s.conns|, false)])
  }

  // One more client connects and ends its input, and its child is in str_echo.
  function WithClient(s: State): State {
    s.(conns := s.conns + [FRESH.(fin := true)],
       kids := s.kids + [Child({Conn(|s.conns|)}, Echoing, |s.conns|, false)])
  }

  lemma ChildStarts(s: State)
    requires Inv(s) && s.handler == Idle && s.parent == Accepting
    ensures Enabled(s, Accept(FRESH)) && Enabled(Step(s, Accept(FRESH)), Fork)
    ensures var s2 := Step(Step(s, Accept(FRESH)), Fork);
            Enabled(s2, CloseConn) && Step(s2, CloseConn) == WithChild(s) && Inv(WithChild(s))
  {
    var n := |s.conns|;
    var s1 := Step(s, Accept(FRESH));
    var s2 := Step(s1, Fork);
    StepKeeps(s, Accept(FRESH));
    StepKeeps(s1, Fork);
    StepKeeps(s2, CloseConn);
    CloseAddsNothing(s2, n);
    hide Inv, ConnOk, Remembered, Refs;
    assert s2.fds - {Conn(n)} == s.fds;
  }

  lemma ChildEchoes(s: State)
    requires Inv(WithChild(s)) && s.handler == Idle && |s.kids| == |s.conns|
    ensures var n := |s.conns|;
            var t := WithChild(s);
            && Enabled(t, CloseListen(n)) && Enabled(Step(t, CloseListen(n)), Client(n, FRESH.(fin := true)))
            && Step(Step(t, CloseListen(n)), Client(n, FRESH.(fin := true))) == WithClient(s)
            && Inv(WithClient(s))
  {
    var n := |s.conns|;
    var t := WithChild(s);
    StepKeeps(t, CloseListen(n));
    var u := Step(t, CloseListen(n));
    StepKeeps(u, Client(n, FRESH.(fin := true)));
    hide Inv, ConnOk, Remembered, Refs;
    assert {Listen, Conn(n)} - {Listen} == {Conn(n)};
    assert u.kids == s.kids + [Child({Conn(n)}, Echoing, n, false)];
  }

  lemma ClientArrives(s0: State, run0: seq<Action>) returns (run: seq<Action>)
    requires IsRun(Enabled, Step, s0, run0)
    requires var s := End(Enabled, Step, s0, run0); Inv(s) && s.handler == Idle && s.parent == Accepting
    ensures IsRun(Enabled, Step, s0, run) && Inv(End(Enabled, Step, s0, run))
    ensures End(Enabled, Step, s0, run) == WithClient(End(Enabled, Step, s0, run0))
  {
    var s := End(Enabled, Step, s0, run0);
    var n := |s.conns|;
    assert |s.kids| == n;
    ChildStarts(s);
    ChildEchoes(s);
    hide IsRun, End, Enabled, Step, Inv, WithChild, WithClient;
    run := Extend(Enabled, Step, s0, run0, Accept(FRESH));
    run := Extend(Enabled, Step, s0, run, Fork);
    run := Extend(Enabled, Step, s0, run, CloseConn);
    run := Extend(Enabled, Step, s0, run, CloseListen(n));
    run := Extend(Enabled, Step, s0, run, Client(n, FRESH.(fin := true)));
  }

  // While the child of the newest connection is alive, the parent's close changes no connection.
  lemma CloseAddsNothing(s: State, c: nat)
    requires Inv(s) && Enabled(s, CloseConn) && s.parent == Closing(c) && !Gone(s.kids[c])
    ensures Step(s, CloseConn).conns == s.conns
  {
    var t := Step(s, CloseConn);
    StepKeeps(s, CloseConn);
    forall k | 0 <= k < |s.conns| ensures t.conns[k] == s.conns[k] {
      assert ConnOk(s, k) && ConnOk(t, k);
    }
  }

  lemma ExitAlone(s: State, i: nat, j: nat)
    requires Inv(s) && Enabled(s, Exit(i)) && Enabled(s, Exit(j)) && i != j
    ensures var t := Step(s, Exit(i));
            && Inv(t) && Enabled(t, Exit(j)) && t.kids == s.kids[i := t.kids[i]] && |t.conns| == |s.conns|
            && t.kids[i].life == Zombie && t.pending && t.handler == s.handler && t.single == s.single
  {
    StepKeeps(s, Exit(i));
    var t := Step(s, Exit(i));
    assert KidOk(s.kids[j], j) && ConnOk(s, j) && ConnOk(t, j);
  }

  // From any state in which two children are about to exit, a run of the single-wait variant
  // leaves one of them a zombie with nothing pending: their two exits raise one signal.
  lemma SingleWaitForgets(s0: State, run0: seq<Action>, i: nat, j: nat) returns (run: seq<Action>)
    requires IsRun(Enabled, Step, s0, run0) && i != j
    requires var s := End(Enabled, Step, s0, run0);
             Inv(s) && s.single && s.handler == Idle && Enabled(s, Exit(i)) && Enabled(s, Exit(j))
    ensures IsRun(Enabled, Step, s0, run)
    ensures |End(Enabled, Step, s0, run).kids| == |End(Enabled, Step, s0, run0).kids| > j
    ensures |End(Enabled, Step, s0, run).conns| == |End(Enabled, Step, s0, run0).conns|
    ensures var t := End(Enabled, Step, s0, run); t.kids[j].life == Zombie && !t.pending && t.handler == Idle
  {
    hide IsRun, End, Inv, Settled;
    var s := End(Enabled, Step, s0, run0);
    ExitAlone(s, i, j);
    ExitShows(Step(s, Exit(i)), j);
    run := Extend(Enabled, Step, s0, run0, Exit(i));
    run := Extend(Enabled, Step, s0, run, Exit(j));
    run := Extend(Enabled, Step, s0, run, Interrupt);
    run := Extend(Enabled, Step, s0, run, Wait(i));
    run := Extend(Enabled, Step, s0, run, Return);
  }

  lemma ExitShows(s: State, j: nat)
    requires Enabled(s, Exit(j))
    ensures var t := Step(s, Exit(j));
            && |t.kids| == |s.kids| && t.kids == s.kids[j := t.kids[j]] && t.kids[j].life == Zombie
            && |t.conns| == |s.conns|
            && t.pending && t.handler == s.handler && t.single == s.single
  {
  }

  // Such a state is reached, so the single wait really does leave a zombie behind.
  lemma SingleWaitLeavesZombie() returns (run: seq<Action>)
    ensures IsRun(Enabled, Step, Start(true), run)
    ensures |End(Enabled, Step, Start(true), run).kids| == |End(Enabled, Step, Start(true), run).conns| == 2
    ensures var t := End(Enabled, Step, Start(true), run); t.kids[1].life == Zombie && !t.pending && t.handler == Idle
  {
    run := TwoAboutToExit();
    run := SingleWaitForgets(Start(true), run, 0, 1);
  }

  lemma TwoAboutToExit() returns (run: seq<Action>)
    ensures IsRun(Enabled, Step, Start(true), run)
    ensures |End(Enabled, Step, Start(true), run).kids| == |End(Enabled, Step, Start(true), run).conns| == 2
    ensures var t := End(Enabled, Step, Start(true), run);
            Inv(t) && t.single && t.handler == Idle && Enabled(t, Exit(0)) && Enabled(t, Exit(1))
  {
    run := ClientArrives(Start(true), []);
    run := ClientArrives(Start(true), run);
  }

  // A zombie that no signal announces.
  ghost predicate Forgotten(s: State) {
    !s.pending && s.handler == Idle && exists i :: 0 <= i < |s.kids| && s.kids[i].life == Zombie
  }

  // With a single child a single wait is enough.
  ghost predicate OneIsReaped(s: State) {
    |s.conns| <= 1 && (exists i :: 0 <= i < |s.kids| && s.kids[i].life == Zombie) ==>
      s.pending || s.handler == Looping
  }

  lemma StepReapsOne(s: State, a: Action)
    requires Inv(s) && OneIsReaped(s) && Enabled(s, a)
    ensures OneIsReaped(Step(s, a))
  {
    hide ConnOk, Remembered, CanServe, Served, Refs, ClientStep;
    var t := Step(s, a);
    if |t.conns| <= 1 {
      if i :| 0 <= i < |t.kids| && t.kids[i].life == Zombie {
        if i < |s.kids| && s.kids[i].life == Zombie {
          assert s.pending || s.handler == Looping;
        }
      }
    }
  }

  // The single wait can leave a zombie behind if and only if two clients are accepted.
  lemma SingleWaitNeedsTwo(n: nat)
    ensures (exists run :: IsRun(Enabled, Step, Start(true), run)
                           && |End(Enabled, Step, Start(true), run).conns| <= n
                           && Forgotten(End(Enabled, Step, Start(true), run)))
            <==> n >= 2
  {
    if n >= 2 {
      var run := SingleWaitLeavesZombie();
    } else {
      forall run | IsRun(Enabled, Step, Start(true), run)
        ensures |End(Enabled, Step, Start(true), run).conns| <= 1 ==> !Forgotten(End(Enabled, Step, Start(true), run))
      {
        var same := (t: State) => Inv(t) && OneIsReaped(t);
        forall t, a | same(t) && Enabled(t, a) ensures same(Step(t, a)) {
          StepKeeps(t, a);
          StepReapsOne(t, a);
        }
        Always(Enabled, Step, same, Start(true), run);
      }
    }
  }
}
