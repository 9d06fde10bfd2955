/**
 The client loops of 07/client.c in their own form.  Machine is the kernel they run on: each
 of its methods is one system call, before which the server may take any number of steps of
 its own.  The recorded path shows that the loop only ever makes runs of the step relation.
 */
module RelayClient {
  import opened Bytes
  import opened EchoLink
  import opened Runs
  import opened Relay

  class Machine {
    const stdinFd: nat
    const sockFd: nat
    ghost const start: State
    ghost var path: seq<Action>
    var s: State

    ghost predicate Valid()
      reads this
    {
      && stdinFd != sockFd
      && start == Start(start.halfClose, start.input)
      && IsRun(Enabled, Step, start, path) && End(Enabled, Step, start, path) == s
      && Inv(s) && s.input == start.input && s.halfClose == start.halfClose
    }

    constructor (halfClose: bool, input: seq<byte>, stdin: nat, sock: nat)
      requires stdin != sock
      ensures Valid() && s == Start(halfClose, input) && start == s && stdinFd == stdin && sockFd == sock
    {
      stdinFd, sockFd := stdin, sock;
      start := Start(halfClose, input);
      s := Start(halfClose, input);
      path := [];
    }

    method Do(a: Action)
      requires Valid() && Enabled(s, a)
      modifies this`s, this`path
      ensures Valid() && s == Step(old(s), a) && Work(s) < Work(old(s))
    {
      path := Extend(Enabled, Step, start, path, a);
      StepKeeps(s, a);
      StepWorks(s, a);
      s := Step(s, a);
    }

    // The state is as it was, except that the server may have made progress.
    twostate predicate OnlyServerMoved()
      reads this
    {
      && s == old(s).(link := s.link)
      && s.link.fin == old(s).link.fin
      && (old(s).link.Readable() ==> s.link.Readable())
      && Work(s) <= Work(old(s))
    }

    // The server runs for as long as the scheduler likes.
    method Interfere()
      requires Valid()
      modifies this`s, this`path
      ensures Valid() && OnlyServerMoved()
    {
      while *
        invariant Valid() && OnlyServerMoved()
        decreases Work(s)
      {
        var n: nat := *;
        var a := NextServerStep(s.link, n);
        if !CanServe(s.link, a) {
          break;
        }
        ServedKeeps(s.link, a);
        Do(Server(a));
      }
    }

    // select(maxfdp1, &rset, NULL, NULL, NULL), which sleeps until a watched descriptor is readable.
    method SelectCall(maxfdp1: nat, rset: set<nat>) returns (ready: set<nat>)
      requires Valid() && s.pc == AtSelect
      requires rset <= {stdinFd, sockFd} && sockFd in rset && (forall fd | fd in rset :: fd < maxfdp1)
      requires stdinFd in rset <==> !s.eof
      modifies this`s, this`path
      ensures Valid() && Work(s) < Work(old(s))
      ensures ready <= rset && s.eof == old(s).eof && s.pc == (if sockFd in ready then AtReadSock else AtReadStdin)
      ensures s.stdinReady == (stdinFd in ready) && (stdinFd in ready || sockFd in ready)
    {
      hide IsRun, End, Conserved, Work;
      Interfere();
      while stdinFd !in rset && !s.link.Readable()
        invariant Valid() && OnlyServerMoved()
        decreases Work(s)
      {
        ServerIdle(s.link);
        var a := NextServerStep(s.link, 1);
        ServedKeeps(s.link, a);
        Do(Server(a));
      }
      var sock: bool, stdin: bool := *, *;
      sock := s.link.Readable() && (sock || stdinFd !in rset);
      stdin := stdinFd in rset && (stdin || !sock);
      Do(Select(sock, stdin));
      ready := (if sock then {sockFd} else {}) + (if stdin then {stdinFd} else {});
    }

    method ReadSockCall() returns (n: nat, buf: seq<byte>)
      requires Valid() && s.pc == AtReadSock
      modifies this`s, this`path
      ensures Valid() && Work(s) < Work(old(s)) && n == |buf|
      ensures s.eof == old(s).eof && s.stdinReady == old(s).stdinReady
      ensures s.pc == if n == 0 then (if s.eof then Returned else Died) else AtWriteOut(buf)
    {
      Interfere();
      assert ReadCount(s.link.down, Min(1, |s.link.down|));
      n :| ReadCount(s.link.down, n);
      assert ReadCount(s.link.down, n);
      buf := s.link.down[..n];
      Do(ReadSock(n));
    }

    method WriteOutCall(buf: seq<byte>)
      requires Valid() && s.pc == AtWriteOut(buf)
      modifies this`s, this`path
      ensures Valid() && Work(s) < Work(old(s))
      ensures s.eof == old(s).eof && s.stdinReady == old(s).stdinReady
      ensures s.pc == if s.stdinReady then AtReadStdin else AtSelect
    {
      Interfere();
      Do(WriteOut);
    }

    method ReadStdinCall() returns (n: nat, buf: seq<byte>)
      requires Valid() && s.pc == AtReadStdin
      modifies this`s, this`path
      ensures Valid() && Work(s) < Work(old(s)) && n == |buf|
      ensures n > 0 ==> s.pc == AtWriteSock(buf) && s.eof == old(s).eof
      ensures n == 0 && s.halfClose ==> s.pc == AtShutdown && s.eof
      ensures n == 0 && !s.halfClose ==> s.pc == Exited
    {
      Interfere();
      assert ReadCount(s.unread, Min(1, |s.unread|));
      n :| ReadCount(s.unread, n);
      assert ReadCount(s.unread, n);
      buf := s.unread[..n];
      Do(ReadStdin(n));
    }

    method WriteSockCall(buf: seq<byte>)
      requires Valid() && s.pc == AtWriteSock(buf)
      modifies this`s, this`path
      ensures Valid() && Work(s) < Work(old(s)) && s.pc == AtSelect && s.eof == old(s).eof
    {
      Interfere();
      Do(WriteSock);
    }

    method ShutdownCall()
      requires Valid() && s.pc == AtShutdown
      modifies this`s, this`path
      ensures Valid() && Work(s) < Work(old(s)) && s.pc == AtSelect && s.eof == old(s).eof
    {
      Interfere();
      Do(Shutdown);
    }
  }

  // str_cli: true for the normal return, false for exit(1).  Against every scheduling of the
  // server it terminates, returns normally, and has copied all of stdin to the output.
  method StrCli(m: Machine) returns (normal: bool)
    requires m.Valid() && m.s.halfClose && m.s == m.start
    modifies m`s, m`path
    ensures m.Valid() && normal && m.s.pc == Returned && m.s.output == m.s.input
  {
    hide Inv, IsRun, End, Work, Link.InFlight;
    var rset: set<nat> := {};
    var stdineof := 0;
    while true
      invariant m.Valid() && m.s.halfClose && m.s.pc == AtSelect
      invariant stdineof == (if m.s.eof then 1 else 0)
      invariant rset <= {m.stdinFd, m.sockFd} && (stdineof == 1 ==> m.stdinFd !in rset)
      decreases Work(m.s)
    {
      if stdineof == 0 {
        rset := rset + {m.stdinFd};
      }
      rset := rset + {m.sockFd};
      var maxfdp1: nat := Max(m.stdinFd, m.sockFd) + 1;
      rset := m.SelectCall(maxfdp1, rset);
      if m.sockFd in rset {
        var n, buf := m.ReadSockCall();
        AtTheEnd(m.s);
        if n == 0 {
          if stdineof == 1 {
            return true;
          } else {
            return false;
          }
        }
        m.WriteOutCall(buf);
      }
      if m.stdinFd in rset {
        var n, buf := m.ReadStdinCall();
        if n == 0 {
          stdineof := 1;
          m.ShutdownCall();
          rset := rset - {m.stdinFd};
          continue;
        }
        m.WriteSockCall(buf);
      }
    }
  }

  // str_cli02: the exit status.  It always terminates with status 0, but its output need only
  // be a prefix of stdin.
  method StrCli02(m: Machine) returns (status: int)
    requires m.Valid() && !m.s.halfClose && m.s == m.start
    modifies m`s, m`path
    ensures m.Valid() && status == 0 && m.s.pc == Exited && m.s.output <= m.s.input
    ensures m.s.output == m.s.input <==> m.s.link.InFlight() == []
  {
    hide Inv, IsRun, End, Work, Link.InFlight;
    var rset: set<nat> := {};
    while true
      invariant m.Valid() && !m.s.halfClose && m.s.pc == AtSelect
      invariant rset <= {m.stdinFd, m.sockFd}
      decreases Work(m.s)
    {
      AtTheEnd(m.s);
      rset := rset + {m.stdinFd};
      rset := rset + {m.sockFd};
      var maxfdp1: nat := Max(m.stdinFd, m.sockFd) + 1;
      rset := m.SelectCall(maxfdp1, rset);
      if m.sockFd in rset {
        var n, recvline := m.ReadSockCall();
        AtTheEnd(m.s);
        if n == 0 {
          return 1;
        }
        m.WriteOutCall(recvline);
      }
      if m.stdinFd in rset {
        var n, sendline := m.ReadStdinCall();
        AtTheEnd(m.s);
        if n == 0 {
          return 0;
        }
        m.WriteSockCall(sendline);
      }
    }
  }
}
