/**
 The parent of the forking server (07/server.c: sig_chld, main01) in its own form.
 Machine is the kernel under the parent: before each of its system calls the children and
 the clients may take any number of steps, and a pending SIGCHLD may run the handler.
 */
module ForkServerProgram {
  import opened Bytes
  import opened EchoLink
  import opened Runs
  import opened ForkServer

  // How many children have not been waited for.
  ghost function Unreaped(kids: seq<Child>): nat {
    if kids == [] then 0
    else Unreaped(kids[..|kids| - 1]) + (if kids[|kids| - 1].life == Reaped then 0 else 1)
  }

  lemma {:induction false} UnreapedUpdate(kids: seq<Child>, i: nat, k: Child)
    requires i < |kids|
    ensures Unreaped(kids[i := k]) + (if kids[i].life == Reaped then 0 else 1)
         == Unreaped(kids) + (if k.life == Reaped then 0 else 1)
  {
    var n := |kids| - 1;
    if i == n {
      assert kids[i := k][..n] == kids[..n];
    } else {
      assert kids[i := k][..n] == kids[..n][i := k];
      UnreapedUpdate(kids[..n], i, k);
    }
  }

  // Steps of the children and the clients.
  predicate OfOthers(a: Action) {
    a.CloseListen? || a.Echo? || a.Exit? || a.Fail? || a.Client?
  }

  lemma OthersReapNothing(s: State, a: Action)
    requires Enabled(s, a) && OfOthers(a)
    ensures var t := Step(s, a);
            && t.parent == s.parent && t.fds == s.fds && t.handler == s.handler && t.single == s.single
            && Unreaped(t.kids) == Unreaped(s.kids) && |t.kids| == |s.kids| && |t.conns| == |s.conns|
  {
    match a
    case CloseListen(i) => UnreapedUpdate(s.kids, i, Step(s, a).kids[i]);
    case Exit(i) => UnreapedUpdate(s.kids, i, Step(s, a).kids[i]);
    case Fail(i) => UnreapedUpdate(s.kids, i, Step(s, a).kids[i]);
    case _ =>
  }

  // A call of accept that no signal interrupts.
  predicate Undisturbed(eintr: bool) {
    !eintr
  }

  // What the parent does in turns of its loop, of which the signals interrupt some accepts: nothing
  // in such a turn, and in every other an accept, a fork and a close.
  ghost predicate Turns(schedule: seq<bool>, done: seq<Action>) {
    if schedule == [] then done == []
    else if schedule[|schedule| - 1] then Turns(schedule[..|schedule| - 1], done)
    else
      && |done| >= 3 && done[|done| - 3].Accept? && done[|done| - 2] == Fork && done[|done| - 1] == CloseConn
      && Turns(schedule[..|schedule| - 1], done[..|done| - 3])
  }

  lemma TurnsMore(schedule: seq<bool>, eintr: bool, done: seq<Action>, more: seq<Action>)
    requires Turns(schedule, done)
    requires if eintr then more == [] else |more| == 3 && more[0].Accept? && more[1] == Fork && more[2] == CloseConn
    ensures Turns(schedule + [eintr], done + more)
  {
    assert (schedule + [eintr])[..|schedule|] == schedule;
    assert (done + more)[..|done|] == done && done + [] == done;
  }

  class Machine {
    ghost const start: State
    ghost var path: seq<Action>
    const schedule: seq<bool>     // which calls of accept a signal interrupts
    var accepts: nat              // how often accept has been called
    ghost var mine: seq<Action>   // what the parent itself has done, outside the handler
    var s: State

    ghost predicate Valid()
      reads this
    {
      && start == Start(false) && Inv(s) && !s.single
      && IsRun(Enabled, Step, start, path) && End(Enabled, Step, start, path) == s
    }

    constructor (eintrs: seq<bool>)
      ensures Valid() && s == start == Start(false) && schedule == eintrs && accepts == 0 && mine == []
    {
      start := Start(false);
      s := Start(false);
      path, mine, accepts, schedule := [], [], 0, eintrs;
    }

    method Do(a: Action)
      requires Valid() && Enabled(s, a)
      modifies this`path, this`s
      ensures Valid() && s == Step(old(s), a)
    {
      hide Inv, Step, Enabled;
      path := Extend(Enabled, Step, start, path, a);
      StepKeeps(s, a);
      s := Step(s, a);
    }

    // The children and the clients run for as long as the scheduler likes.
    method RunOthers()
      requires Valid()
      modifies this`path, this`s
      ensures Valid() && s.parent == old(s).parent && s.handler == old(s).handler
      ensures Unreaped(s.kids) == Unreaped(old(s).kids)
      ensures |s.kids| == |old(s).kids| && |s.conns| == |old(s).conns|
    {
      hide IsRun, End, Inv, Step, Enabled, Unreaped;
      var steps: nat :| steps >= 0;
      for k := 0 to steps
        invariant Valid() && s.parent == old(s).parent && s.handler == old(s).handler
        invariant Unreaped(s.kids) == Unreaped(old(s).kids)
        invariant |s.kids| == |old(s).kids| && |s.conns| == |old(s).conns|
      {
        var a: Action := *;
        if Enabled(s, a) && OfOthers(a) {
          OthersReapNothing(s, a);
          Do(a);
        }
      }
    }

    // waitpid(-1, &stat, WNOHANG), inside the handler: some zombie, or 0 or less for none.
    method WaitPidCall() returns (pid: int)
      requires Valid() && s.handler == Looping
      modifies this`path, this`s
      ensures Valid() && s.parent == old(s).parent && |s.kids| == |old(s).kids| && |s.conns| == |old(s).conns|
      ensures pid > 0 ==> s.handler == Looping && Unreaped(s.kids) < Unreaped(old(s).kids)
      ensures pid <= 0 ==> s.handler == Returning && Unreaped(s.kids) == Unreaped(old(s).kids)
    {
      hide IsRun, End, Inv, Unreaped;
      RunOthers();
      if i: nat :| i < |s.kids| && s.kids[i].life == Zombie {
        UnreapedUpdate(s.kids, i, s.kids[i].(life := Reaped));
        Do(Wait(i));
        pid := i + 1;
      } else {
        Do(WaitNone);
        pid := *;
        pid := Min(pid, 0);
      }
    }

    // A pending SIGCHLD is delivered: the handler runs to its end.
    method Deliver()
      requires Valid() && s.handler == Idle
      modifies this`path, this`s
      ensures Valid() && s.handler == Idle && s.parent == old(s).parent
      ensures |s.kids| == |old(s).kids| && |s.conns| == |old(s).conns|
    {
      hide IsRun, End, Inv, Unreaped;
      RunOthers();
      if s.pending {
        Do(Interrupt);
        SigChld(this);
        RunOthers();
        Do(Return);
      }
    }

    // accept: a new connection, or -1 when a signal interrupts it (EINTR).
    method AcceptCall() returns (connfd: int)
      requires Valid() && s.handler == Idle && s.parent == Accepting && accepts < |schedule|
      modifies this
      ensures Valid() && s.handler == Idle && accepts == old(accepts) + 1
      ensures connfd < 0 <==> schedule[old(accepts)]
      ensures connfd < 0 ==> s.parent == Accepting && mine == old(mine)
                             && |s.conns| == |old(s).conns| && |s.kids| == |old(s).kids|
      ensures connfd >= 0 ==> s.parent == Forking(connfd) && connfd == |old(s).conns|
                              && |s.conns| == |old(s).conns| + 1 && |s.kids| == |old(s).kids|
                              && |mine| == |old(mine)| + 1 && mine == old(mine) + [mine[|mine| - 1]]
                              && mine[|mine| - 1].Accept?
    {
      hide IsRun, End, Inv;
      Deliver();
      accepts := accepts + 1;
      if schedule[accepts - 1] {
        return -1;
      }
      connfd := |s.conns|;
      var l: Link := *;
      l := if Untouched(l) then l else FRESH;
      mine := mine + [Accept(l)];
      Do(Accept(l));
    }

    // fork, as its parent returns from it.
    method ForkCall()
      requires Valid() && s.handler == Idle && s.parent.Forking?
      modifies this`path, this`s, this`mine
      ensures Valid() && s.handler == Idle && s.parent == Closing(old(s).parent.c)
      ensures |s.conns| == |old(s).conns| && |s.kids| == |old(s).kids| + 1 && mine == old(mine) + [Fork]
    {
      hide IsRun, End, Inv;
      Deliver();
      mine := mine + [Fork];
      Do(Fork);
    }

    method CloseCall(connfd: nat)
      requires Valid() && s.handler == Idle && s.parent == Closing(connfd)
      modifies this`path, this`s, this`mine
      ensures Valid() && s.handler == Idle && s.parent == Accepting
      ensures |s.conns| == |old(s).conns| && |s.kids| == |old(s).kids| && mine == old(mine) + [CloseConn]
    {
      hide IsRun, End, Inv;
      Deliver();
      mine := mine + [CloseConn];
      Do(CloseConn);
    }
  }

  // sig_chld: it terminates, whatever the children do meanwhile, and when it is about to return
  // there is no zombie unless another SIGCHLD is already pending.
  method SigChld(m: Machine)
    requires m.Valid() && m.s.handler == Looping
    modifies m`path, m`s
    ensures m.Valid() && m.s.handler == Returning && m.s.parent == old(m.s).parent
    ensures |m.s.kids| == |old(m.s).kids| && |m.s.conns| == |old(m.s).conns|
    ensures !m.s.pending ==> forall i | 0 <= i < |m.s.kids| :: m.s.kids[i].life != Zombie
  {
    var pid := m.WaitPidCall();
    while pid > 0
      invariant m.Valid() && m.s.parent == old(m.s).parent
      invariant |m.s.kids| == |old(m.s).kids| && |m.s.conns| == |old(m.s).conns|
      invariant m.s.handler == if pid > 0 then Looping else Returning
      decreases Unreaped(m.s.kids), if pid > 0 then 1 else 0
    {
      pid := m.WaitPidCall();
    }
    if !m.s.pending {
      NoneForgotten(m.s);
    }
  }

  lemma NoneForgotten(s: State)
    requires Inv(s) && !s.single && s.handler == Returning && !s.pending
    ensures forall i | 0 <= i < |s.kids| :: s.kids[i].life != Zombie
  {
  }

  // main01: any number of turns of the parent's endless loop, one for each entry of the schedule.
  // In every turn whose accept is not interrupted the parent accepts, forks and closes its
  // copy, so there are as many connections and children as there are such turns, and the
  // parent holds none of them.  Every execution is a run of the step relation, so the
  // theorems about runs hold of it.
  method Main01(m: Machine)
    requires m.Valid() && m.s == m.start && m.accepts == 0 && m.mine == []
    modifies m
    ensures m.Valid() && m.s.parent == Accepting && m.s.handler == Idle && m.s.fds == {Listen}
    ensures |m.s.conns| == |m.s.kids| == CountOf(Undisturbed, m.schedule)
    ensures Turns(m.schedule, m.mine)
    ensures forall c | 0 <= c < |m.s.conns| :: ConnOk(m.s, c)
  {
    hide IsRun, End, Inv, Turns;
    NoTurns();
    for t := 0 to |m.schedule|
      invariant m.Valid() && m.s.parent == Accepting && m.s.handler == Idle && m.accepts == t
      invariant |m.s.conns| == |m.s.kids| == CountOf(Undisturbed, m.schedule[..t])
      invariant Turns(m.schedule[..t], m.mine)
    {
      ghost var before := m.mine;
      assert m.schedule[..t + 1] == m.schedule[..t] + [m.schedule[t]];
      CountAppend(Undisturbed, m.schedule[..t], m.schedule[t]);
      var connfd := m.AcceptCall();
      if connfd < 0 {
        TurnsMore(m.schedule[..t], true, before, []);
        assert before + [] == m.mine;
        continue;
      }
      ghost var accept := m.mine[|m.mine| - 1];
      m.ForkCall();
      m.CloseCall(connfd);
      TurnsMore(m.schedule[..t], false, before, [accept, Fork, CloseConn]);
      assert m.mine == before + [accept, Fork, CloseConn];
    }
    assert m.schedule[..|m.schedule|] == m.schedule;
    AtRest(m.s);
  }

  lemma NoTurns()
    ensures Turns([], [])
  {
  }

  // Back at accept, the parent holds the listening socket only.
  lemma AtRest(s: State)
    requires Inv(s) && s.parent == Accepting
    ensures s.fds == {Listen} && forall c | 0 <= c < |s.conns| :: ConnOk(s, c)
  {
  }
}
