/**
 str_cli of 16/fork_strcli.c in its own form.  Machine is the kernel: each method is one system
 call of one of the two processes, before which the other process and the server may take
 any number of steps.
 */
module ForkRelayClient {
  import opened Bytes
  import opened EchoLink
  import opened Runs
  import opened ForkRelay

  // Actions of the child, and of the parent; the rest are the server's.
  predicate OfChild(a: Action) {
    a.ReadSock? || a.WriteOut? || a.KillParent? || a.Exit?
  }

  predicate OfParent(a: Action) {
    a.ReadStdin? || a.WriteSock? || a.EndSending? || a.Pause?
  }

  // The bytes that an action writes, to the socket or to stdout.
  function Written(s: State, a: Action): seq<byte>
    requires Enabled(s, a)
  {
    if a.WriteSock? then s.parent.buf else if a.WriteOut? then s.child.buf else []
  }

  // The loops of the two processes, given the sizes of the pieces they copy.
  ghost function Copied(cuts: seq<nat>, child: bool): seq<Action> {
    if cuts == [] then []
    else
      var n := |cuts| - 1;
      Copied(cuts[..n], child) + (if child then [ReadSock(cuts[n]), WriteOut] else [ReadStdin(cuts[n]), WriteSock])
  }

  lemma CopiedMore(cuts: seq<nat>, child: bool, n: nat)
    ensures Copied(cuts + [n], child)
         == Copied(cuts, child) + (if child then [ReadSock(n), WriteOut] else [ReadStdin(n), WriteSock])
  {
    assert (cuts + [n])[..|cuts|] == cuts;
  }

  class Machine {
    ghost const start: State
    ghost var path: seq<Action>
    ghost var mine: seq<Action>   // what the process under consideration has done itself
    ghost var wrote: seq<byte>    // and what it has written: the parent to the socket, the child to stdout
    var s: State

    ghost predicate Valid()
      reads this
    {
      && start == Start(true, start.input)
      && IsRun(Enabled, Step, start, path) && End(Enabled, Step, start, path) == s
      && Inv(s) && s.input == start.input && s.useShutdown
    }

    constructor (input: seq<byte>)
      ensures Valid() && s == Start(true, input) && mine == [] && wrote == []
    {
      start := Start(true, input);
      s := Start(true, input);
      path, mine, wrote := [], [], [];
    }

    method Do(a: Action)
      requires Valid() && Enabled(s, a)
      modifies this`path, this`s
      ensures Valid() && s == Step(old(s), a) && Work(s) < Work(old(s))
    {
      path := Extend(Enabled, Step, start, path, a);
      StepKeeps(s, a);
      StepWorks(s, a);
      s := Step(s, a);
    }

    // A step of the process itself.
    method Call(a: Action)
      requires Valid() && Enabled(s, a) && (OfParent(a) || OfChild(a))
      modifies this
      ensures Valid() && s == Step(old(s), a) && Work(s) < Work(old(s))
      ensures mine == old(mine) + [a] && wrote == old(wrote) + Written(old(s), a)
    {
      hide IsRun, End, Inv, Work, Step, Enabled;
      mine, wrote := mine + [a], wrote + Written(s, a);
      Do(a);
    }

    // Everyone but the child runs for as long as the scheduler likes.
    method RunOthersThanChild()
      requires Valid()
      modifies this`path, this`s
      ensures Valid() && s.child == old(s).child && s.output == old(s).output && Work(s) <= Work(old(s))
      ensures old(s).link.Readable() ==> s.link.Readable()
    {
      hide IsRun, End, Inv, Work;
      while *
        invariant Valid() && s.child == old(s).child && s.output == old(s).output && Work(s) <= Work(old(s))
        invariant old(s).link.Readable() ==> s.link.Readable()
        decreases Work(s)
      {
        var a: Action := *;
        if !Enabled(s, a) || OfChild(a) {
          break;
        }
        Do(a);
      }
    }

    // Everyone but the parent runs; they may kill it, but only once it has sent everything.
    method RunOthersThanParent()
      requires Valid() && s.parent != Killed
      modifies this`path, this`s
      ensures Valid() && s.unread == old(s).unread && Work(s) <= Work(old(s))
      ensures s.parent == old(s).parent || (SentAll(old(s)) && s.parent == Killed)
    {
      hide IsRun, End, Conserved, Work;
      while *
        invariant Valid() && s.unread == old(s).unread && Work(s) <= Work(old(s))
        invariant s.parent == old(s).parent || (SentAll(old(s)) && s.parent == Killed)
        decreases Work(s)
      {
        var a: Action := *;
        if !Enabled(s, a) || OfParent(a) {
          break;
        }
        Do(a);
      }
    }

    /* ----- the child's calls ----- */

    // read(sockfd, ...): sleeps until there is data or the server has closed.
    method ReadSockCall() returns (n: nat, buf: seq<byte>)
      requires Valid() && s.child == Receiving
      modifies this
      ensures Valid() && Work(s) < Work(old(s)) && n == |buf|
      ensures s.child == if n == 0 then BeforeKill else Printing(buf)
      ensures mine == old(mine) + [ReadSock(n)] && wrote == old(wrote) && s.output == old(s).output
    {
      hide IsRun, End, Inv, Work;
      RunOthersThanChild();
      while !s.link.Readable()
        invariant Valid() && s.child == Receiving && s.output == old(s).output && Work(s) <= Work(old(s))
        invariant mine == old(mine) && wrote == old(wrote)
        decreases Work(s)
      {
        SomeoneMoves(s);
        var a := NextServerStep(s.link, 1);
        Do(if CanServe(s.link, a) then Server(a) else ParentMove(s));
      }
      assert ReadCount(s.link.down, Min(1, |s.link.down|));
      n :| ReadCount(s.link.down, n);
      assert ReadCount(s.link.down, n);
      buf := s.link.down[..n];
      Call(ReadSock(n));
    }

    // fputs(recvline, stdout)
    method WriteOutCall(recvline: seq<byte>)
      requires Valid() && s.child == Printing(recvline)
      modifies this
      ensures Valid() && Work(s) < Work(old(s)) && s.child == Receiving && s.output == old(s).output + recvline
      ensures mine == old(mine) + [WriteOut] && wrote == old(wrote) + recvline
    {
      hide IsRun, End, Inv, Work;
      RunOthersThanChild();
      Call(WriteOut);
    }

    // kill(getppid(), SIGTERM)
    method KillCall()
      requires Valid() && s.child == BeforeKill
      modifies this
      ensures Valid() && s.child == BeforeExit && s.parent == Killed && s.output == old(s).output
      ensures mine == old(mine) + [KillParent] && wrote == old(wrote)
    {
      hide IsRun, End, Conserved, Work;
      RunOthersThanChild();
      Call(KillParent);
    }

    method ExitCall()
      requires Valid() && s.child == BeforeExit
      modifies this
      ensures Valid() && s.child == Gone && s.output == old(s).output
      ensures mine == old(mine) + [Exit] && wrote == old(wrote)
    {
      hide IsRun, End, Conserved, Work;
      RunOthersThanChild();
      Call(Exit);
    }

    /* ----- the parent's calls ----- */

    // fgets(sendLine, 1024, fp): the empty result stands for NULL.
    method ReadStdinCall() returns (line: seq<byte>)
      requires Valid() && s.parent == Reading
      modifies this
      ensures Valid() && Work(s) < Work(old(s))
      ensures s.parent == if line == [] then Ending else Writing(line)
      ensures mine == old(mine) + [ReadStdin(|line|)] && wrote == old(wrote) && line + s.unread == old(s).unread
      ensures line == [] ==> s.unread == []
    {
      hide IsRun, End, Inv, Work;
      RunOthersThanParent();
      assert ReadCount(s.unread, Min(1, |s.unread|));
      var n: nat :| ReadCount(s.unread, n);
      assert ReadCount(s.unread, n);
      line := s.unread[..n];
      Cut(s.unread, n);
      Call(ReadStdin(n));
    }

    method WriteSockCall(line: seq<byte>)
      requires Valid() && s.parent == Writing(line)
      modifies this
      ensures Valid() && Work(s) < Work(old(s)) && s.parent == Reading && s.unread == old(s).unread
      ensures mine == old(mine) + [WriteSock] && wrote == old(wrote) + line
    {
      hide IsRun, End, Inv, Work;
      RunOthersThanParent();
      Call(WriteSock);
    }

    method ShutdownCall()
      requires Valid() && s.parent == Ending
      modifies this
      ensures Valid() && s.parent == BeforePause && mine == old(mine) + [EndSending] && wrote == old(wrote)
    {
      hide IsRun, End, Inv, Work;
      RunOthersThanParent();
      Call(EndSending);
    }

    // pause(): the parent has no handler, so it sleeps until SIGTERM ends it.  SIGTERM may even
    // arrive before the call.
    method PauseCall()
      requires Valid() && s.parent == BeforePause
      modifies this
      ensures Valid() && s.parent == Killed && s.output == s.input && wrote == old(wrote)
      ensures mine == old(mine) || mine == old(mine) + [Pause]
    {
      RunOthersThanParent();
      if s.parent != Killed {
        Call(Pause);
        PausedUntilKilled();
      }
    }

    method PausedUntilKilled()
      requires Valid() && s.parent == Paused
      modifies this`path, this`s
      ensures Valid() && s.parent == Killed
    {
      hide IsRun, End, Conserved, Work;
      while s.parent != Killed
        invariant Valid() && SentAll(s)
        decreases Work(s)
      {
        SomeoneMoves(s);
        var a := NextServerStep(s.link, 1);
        Do(if CanServe(s.link, a) then Server(a) else ChildMove(s));
      }
    }
  }

  // Lines 25-31, the child.
  method Receive(m: Machine) returns (ghost cuts: seq<nat>)
    requires m.Valid() && m.s == m.start && m.mine == [] && m.wrote == []
    modifies m
    ensures m.Valid() && m.s.parent == Killed && m.s.child == Gone && m.s.output == m.s.input == m.wrote
    ensures m.mine == Copied(cuts, true) + [ReadSock(0), KillParent, Exit] && forall n | n in cuts :: n > 0
  {
    hide IsRun, End, Inv, Work;
    cuts := [];
    var n, recvline := m.ReadSockCall();
    while n > 0
      invariant m.Valid() && n == |recvline|
      invariant m.s.child == if n == 0 then BeforeKill else Printing(recvline)
      invariant m.mine == Copied(cuts, true) + [ReadSock(n)] && m.wrote == m.s.output
      invariant forall k | k in cuts :: k > 0
      decreases Work(m.s)
    {
      CopiedMore(cuts, true, n);
      cuts := cuts + [n];
      m.WriteOutCall(recvline);
      n, recvline := m.ReadSockCall();
    }
    m.KillCall();
    m.ExitCall();
    AllDone(m.s);
  }

  // Lines 34-39, the parent.
  method Send(m: Machine) returns (ghost cuts: seq<nat>)
    requires m.Valid() && m.s == m.start && m.mine == [] && m.wrote == []
    modifies m
    ensures m.Valid() && m.s.parent == Killed && m.s.output == m.s.input == m.wrote
    ensures || m.mine == Copied(cuts, false) + [ReadStdin(0), EndSending]
            || m.mine == Copied(cuts, false) + [ReadStdin(0), EndSending, Pause]
    ensures forall n | n in cuts :: n > 0
  {
    hide IsRun, End, Inv, Work;
    cuts := [];
    var sendLine := m.ReadStdinCall();
    while sendLine != []
      invariant m.Valid() && m.s.parent == if sendLine == [] then Ending else Writing(sendLine)
      invariant m.mine == Copied(cuts, false) + [ReadStdin(|sendLine|)]
      invariant m.wrote + sendLine + m.s.unread == m.s.input && (sendLine == [] ==> m.s.unread == [])
      invariant forall k | k in cuts :: k > 0
      decreases Work(m.s)
    {
      CopiedMore(cuts, false, |sendLine|);
      cuts := cuts + [|sendLine|];
      ghost var before := m.wrote + sendLine;
      m.WriteSockCall(sendLine);
      sendLine := m.ReadStdinCall();
      Regroup(before, sendLine, m.s.unread);
    }
    m.ShutdownCall();
    m.PauseCall();
  }

  // str_cli as either process runs it; pid is what fork returned.  The child copies the socket to
  // stdout, kills the parent and exits; the parent copies stdin to the socket, shuts down and
  // pauses (SIGTERM may even come first).  Whatever the other process and the server do
  // meanwhile, the child exits after the parent is dead, the parent ends by being killed, each
  // has written all of stdin, and everything has been printed.
  method StrCli(m: Machine, pid: nat) returns (ghost cuts: seq<nat>)
    requires m.Valid() && m.s == m.start && m.mine == [] && m.wrote == []
    modifies m
    ensures m.Valid() && m.s.parent == Killed && m.s.output == m.s.input
    ensures m.wrote == m.s.input && forall n | n in cuts :: n > 0
    ensures pid == 0 ==> m.s.child == Gone && m.mine == Copied(cuts, true) + [ReadSock(0), KillParent, Exit]
    ensures pid != 0 ==> || m.mine == Copied(cuts, false) + [ReadStdin(0), EndSending]
                         || m.mine == Copied(cuts, false) + [ReadStdin(0), EndSending, Pause]
  {
    if pid == 0 {
      cuts := Receive(m);
    } else {
      cuts := Send(m);
    }
  }
}
