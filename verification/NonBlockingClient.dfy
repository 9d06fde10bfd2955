/**
 str_cli of 16/str_cli.c in its own form: two arrays filled and drained in place through four
 pointers, here offsets.  Machine is the kernel: each method is one system call, before which
 the server may take any number of steps.
 */
module NonBlockingClient {
  import opened Bytes
  import opened EchoLink
  import opened Runs
  import opened NonBlocking

  const STDIN: nat := 0
  const STDOUT: nat := 1

  /* ----- what each call does, as the program sees it ----- */

  // The count a call returns.
  function Count(r: Result): int {
    if r.Done? then r.n else -1
  }

  lemma AfterSelect(s: State, t: Sets)
    requires Enabled(s, Select(t))
    ensures var u := Step(s, Select(t));
            u.d == s.d && u.sets == t && u.pc == if t.rStdin then AtReadStdin else FromSock(u.d, u.sets)
  {
  }

  lemma AfterReadStdin(s: State, r: Result)
    requires Inv(s) && Enabled(s, ReadStdin(r))
    ensures Max(Count(r), 0) <= Min(|s.d.unread|, s.cap - s.d.to.I())
    ensures var u := Step(s, ReadStdin(r));
            var n := Count(r);
            && u.d.from == s.d.from && u.d.eof == (n == 0)
            && u.d.to == (if n > 0 then s.d.to.Put(s.d.unread[..n]) else s.d.to)
            && u.sets == (if n > 0 then s.sets.(wSock := true) else s.sets)
            && u.pc == if n == 0 && u.d.to.held == [] then AtShutEarly else FromSock(u.d, u.sets)
  {
  }

  lemma AfterReadSock(s: State, r: Result)
    requires Inv(s) && Enabled(s, ReadSock(r))
    ensures Max(Count(r), 0) <= Min(|s.d.link.down|, s.cap - s.d.from.I())
    ensures var u := Step(s, ReadSock(r));
            var n := Count(r);
            && u.d.to == s.d.to && u.d.eof == s.d.eof
            && u.d.from == (if n > 0 then s.d.from.Put(s.d.link.down[..n]) else s.d.from)
            && u.sets == (if n > 0 then s.sets.(wOut := true) else s.sets)
            && u.pc == if n == 0 then (if u.d.eof then Returned else Died) else FromOut(u.d, u.sets)
  {
    assert s.d.from.Put([]) == s.d.from;
  }

  lemma AfterWriteOut(s: State, r: Result)
    requires Enabled(s, WriteOut(r))
    ensures r.Done? ==> 1 <= r.n <= |s.d.from.held|
    ensures var u := Step(s, WriteOut(r));
            var n := Count(r);
            && u.d.to == s.d.to && u.d.eof == s.d.eof && u.sets == s.sets
            && u.d.from == (if n > 0 then s.d.from.Drop(n) else s.d.from)
            && u.d.output == s.d.output + s.d.from.held[..Max(n, 0)]
            && u.pc == if n > 0 then FromSend(u.d, u.sets) else AtSelect
  {
  }

  lemma AfterWriteSock(s: State, r: Result)
    requires Enabled(s, WriteSock(r))
    ensures r.Done? ==> 1 <= r.n <= |s.d.to.held|
    ensures var u := Step(s, WriteSock(r));
            var n := Count(r);
            && u.d.from == s.d.from && u.d.eof == s.d.eof
            && u.d.to == (if n > 0 then s.d.to.Drop(n) else s.d.to)
            && u.d.sent == s.d.sent + s.d.to.held[..Max(n, 0)]
            && u.pc == if n > 0 && u.d.to.held == [] && u.d.eof then AtShutLate else AtSelect
  {
  }

  lemma AfterShutdown(s: State)
    requires Enabled(s, Shutdown)
    ensures var u := Step(s, Shutdown);
            && u.d == s.d.(link := u.d.link) && u.sets == s.sets
            && u.pc == if s.pc == AtShutEarly then FromSock(u.d, u.sets) else AtSelect
  {
  }

  lemma SelectMove(s: State)
    requires Inv(s) && Move(s).Select? && s.pc == AtSelect
    ensures MayReport(s.cap, s.d, Move(s).sets)
  {
    MoveEnabled(s);
  }

  // The read or write that is answered with r.
  function WithResult(call: Action, r: Result): Action
    requires call.Blocks()
  {
    match call
    case ReadStdin(_) => ReadStdin(r)
    case ReadSock(_) => ReadSock(r)
    case WriteOut(_) => WriteOut(r)
    case WriteSock(_) => WriteSock(r)
  }

  class Machine {
    const sockfd: nat
    ghost const start: State
    ghost var path: seq<Action>
    var s: State

    ghost predicate Valid()
      reads this
    {
      && sockfd > STDOUT
      && start == Start(start.cap, start.patience, start.input)
      && IsRun(Enabled, Step, start, path) && End(Enabled, Step, start, path) == s
      && Inv(s) && s.input == start.input && s.cap == start.cap
    }

    constructor (cap: nat, patience: nat, input: seq<byte>, sock: nat)
      requires cap > 0 && sock > STDOUT
      ensures Valid() && s == Start(cap, patience, input) && sockfd == sock
    {
      sockfd := sock;
      start := Start(cap, patience, input);
      s := Start(cap, patience, input);
      path := [];
    }

    method Do(a: Action)
      requires Valid() && Enabled(s, a)
      modifies this
      ensures Valid() && s == Step(old(s), a) && Work(s) < Work(old(s))
    {
      hide Inv, Work, Step, Enabled;
      path := Extend(Enabled, Step, start, path, a);
      StepKeeps(s, a);
      StepWorks(s, a);
      s := Step(s, a);
    }

    twostate predicate OnlyServerMoved()
      reads this
    {
      && s == old(s).(d := old(s).d.(link := s.d.link))
      && (old(s).d.link.Readable() ==> s.d.link.Readable())
      && Work(s) <= Work(old(s))
    }

    method Interfere()
      requires Valid()
      modifies this
      ensures Valid() && OnlyServerMoved()
    {
      hide IsRun, End, Inv, Work;
      while *
        invariant Valid() && OnlyServerMoved()
        decreases Work(s)
      {
        var n: nat := *;
        var a := NextServerStep(s.d.link, n);
        if !CanServe(s.d.link, a) {
          break;
        }
        Do(Server(a));
      }
    }

    // The sets as bits: which of the watched descriptors are in rset and wset.
    ghost function Bits(rset: set<nat>, wset: set<nat>): Sets {
      Sets(STDIN in rset, sockfd in rset, STDOUT in wset, sockfd in wset)
    }

    // select(maxfdp1, &rset, &wset, NULL, NULL), which sleeps until it can report something.
    method SelectCall(maxfdp1: nat, rset: set<nat>, wset: set<nat>) returns (r: set<nat>, w: set<nat>)
      requires Valid() && s.pc == AtSelect && maxfdp1 > sockfd
      requires Bits(rset, wset) == Interest(s.cap, s.d)
      modifies this
      ensures Valid() && Work(s) < Work(old(s))
      ensures s.d == old(s).d.(link := s.d.link) && s.sets == Bits(r, w)
      ensures s.pc == if STDIN in r then AtReadStdin else FromSock(s.d, s.sets)
    {
      hide IsRun, End, Inv, Work, Step, Move, Interest, FromSock, Machine.Valid;
      Wait();
      var t := PickSets();
      AfterSelect(s, t);
      Do(Select(t));
      r := (if t.rStdin then {STDIN} else {}) + (if t.rSock then {sockfd} else {});
      w := (if t.wOut then {STDOUT} else {}) + (if t.wSock then {sockfd} else {});
    }

    method PickSets() returns (t: Sets)
      requires Valid() && s.pc == AtSelect && Move(s).Select?
      ensures Enabled(s, Select(t)) && sockfd > STDOUT
    {
      hide IsRun, End;
      SelectMove(s);
      t := *;
      t := if MayReport(s.cap, s.d, t) then t else Move(s).sets;
    }

    // Sleep in select while only the server can move.
    method Wait()
      requires Valid() && s.pc == AtSelect
      modifies this
      ensures Valid() && OnlyServerMoved() && Move(s).Select?
    {
      hide IsRun, End, Inv, Work;
      Interfere();
      while Move(s).Server?
        invariant Valid() && OnlyServerMoved()
        decreases Work(s)
      {
        MoveEnabled(s);
        Do(Move(s));
      }
    }

    // The kernel's answer to the call the client is making.
    method Pick(call: Action) returns (r: Result)
      requires Valid() && AtIts(s.pc, call) && call.Blocks()
      ensures Inv(s) && Enabled(s, WithResult(call, r)) && s.cap == start.cap
    {
      hide IsRun, End;
      MoveEnabled(s);
      r := *;
      r := if Enabled(s, WithResult(call, r)) then r else Move(s).r;
    }

    // read(STDIN_FILENO, buf + at, buf.Length - at): -1 stands for EWOULDBLOCK.
    method ReadStdinCall(buf: array<byte>, at: nat) returns (n: int)
      requires Valid() && s.pc == AtReadStdin && buf.Length == start.cap && at == s.d.to.I()
      modifies this, buf
      ensures Valid() && Work(s) < Work(old(s)) && -1 <= n <= buf.Length - at
      ensures buf[..at] == old(buf[..at])
      ensures s.d.from == old(s).d.from && s.d.eof == (n == 0)
      ensures s.d.to == if n > 0 then old(s).d.to.Put(buf[at..at + n]) else old(s).d.to
      ensures s.sets == if n > 0 then old(s).sets.(wSock := true) else old(s).sets
      ensures s.pc == if n == 0 && s.d.to.held == [] then AtShutEarly else FromSock(s.d, s.sets)
    {
      hide IsRun, End, Inv, Work, Step, Enabled, Move, FromSock, FromOut, FromSend;
      hide Machine.Valid;
      Interfere();
      var r := Pick(ReadStdin(WouldBlock));
      AfterReadStdin(s, r);
      n := Count(r);
      Fill(buf, at, s.d.unread, Max(n, 0));
      Do(ReadStdin(r));
    }

    // read(sockfd, buf + at, buf.Length - at).
    method ReadSockCall(buf: array<byte>, at: nat) returns (n: int)
      requires Valid() && s.pc == AtReadSock && buf.Length == start.cap && at == s.d.from.I()
      modifies this, buf
      ensures Valid() && Work(s) < Work(old(s)) && -1 <= n <= buf.Length - at
      ensures buf[..at] == old(buf[..at])
      ensures s.d.to == old(s).d.to && s.d.eof == old(s).d.eof
      ensures s.d.from == if n > 0 then old(s).d.from.Put(buf[at..at + n]) else old(s).d.from
      ensures s.sets == if n > 0 then old(s).sets.(wOut := true) else old(s).sets
      ensures s.pc == if n == 0 then (if s.d.eof then Returned else Died) else FromOut(s.d, s.sets)
    {
      hide IsRun, End, Inv, Work, Step, Enabled, Move, FromSock, FromOut, FromSend;
      hide Machine.Valid;
      Interfere();
      var r := Pick(ReadSock(WouldBlock));
      AfterReadSock(s, r);
      n := Count(r);
      Fill(buf, at, s.d.link.down, Max(n, 0));
      Do(ReadSock(r));
    }

    // write(STDOUT_FILENO, buf + at, n), of which nwritten bytes are taken.
    method WriteOutCall(buf: array<byte>, at: nat, n: nat) returns (nwritten: int)
      requires Valid() && s.pc == AtWriteOut && at + n <= buf.Length && buf[at..at + n] == s.d.from.held
      modifies this
      ensures Valid() && Work(s) < Work(old(s)) && -1 <= nwritten <= n && nwritten != 0
      ensures s.d.to == old(s).d.to && s.d.eof == old(s).d.eof && s.sets == old(s).sets
      ensures s.d.from == if nwritten > 0 then old(s).d.from.Drop(nwritten) else old(s).d.from
      ensures s.d.output == old(s).d.output + buf[at..at + Max(nwritten, 0)]
      ensures s.pc == if nwritten > 0 then FromSend(s.d, s.sets) else AtSelect
    {
      hide IsRun, End, Inv, Work, Step, Enabled, Move, FromSock, FromOut, FromSend;
      hide Machine.Valid;
      Interfere();
      var r := Pick(WriteOut(WouldBlock));
      AfterWriteOut(s, r);
      nwritten := Count(r);
      assert buf[at..at + n][..Max(nwritten, 0)] == buf[at..at + Max(nwritten, 0)];
      Do(WriteOut(r));
    }

    // write(sockfd, buf + at, n).
    method WriteSockCall(buf: array<byte>, at: nat, n: nat) returns (nwritten: int)
      requires Valid() && s.pc == AtWriteSock && at + n <= buf.Length && buf[at..at + n] == s.d.to.held
      modifies this
      ensures Valid() && Work(s) < Work(old(s)) && -1 <= nwritten <= n && nwritten != 0
      ensures s.d.from == old(s).d.from && s.d.eof == old(s).d.eof
      ensures s.d.to == if nwritten > 0 then old(s).d.to.Drop(nwritten) else old(s).d.to
      ensures s.d.sent == old(s).d.sent + buf[at..at + Max(nwritten, 0)]
      ensures s.pc == if nwritten > 0 && s.d.to.held == [] && s.d.eof then AtShutLate else AtSelect
    {
      hide IsRun, End, Inv, Work, Step, Enabled, Move, FromSock, FromOut, FromSend;
      hide Machine.Valid;
      Interfere();
      var r := Pick(WriteSock(WouldBlock));
      AfterWriteSock(s, r);
      nwritten := Count(r);
      assert buf[at..at + n][..Max(nwritten, 0)] == buf[at..at + Max(nwritten, 0)];
      Do(WriteSock(r));
    }

    // shutdown(sockfd, SHUT_WR)
    method ShutdownCall()
      requires Valid() && (s.pc == AtShutEarly || s.pc == AtShutLate)
      modifies this
      ensures Valid() && Work(s) < Work(old(s))
      ensures s.d == old(s).d.(link := s.d.link) && s.sets == old(s).sets
      ensures s.pc == if old(s).pc == AtShutEarly then FromSock(s.d, s.sets) else AtSelect
    {
      hide IsRun, End, Inv, Work, Step, Move, FromSock, FromOut, FromSend;
      Interfere();
      AfterShutdown(s);
      Do(Shutdown);
    }
  }

  // The kernel's side of a read: the first n bytes of data go to buf at offset at.
  method Fill(buf: array<byte>, at: nat, data: seq<byte>, n: nat)
    requires at + n <= buf.Length && n <= |data|
    modifies buf
    ensures buf[..at] == old(buf[..at]) && buf[at..at + n] == data[..n]
  {
    for k := 0 to n
      invariant buf[..at] == old(buf[..at]) && buf[at..at + k] == data[..k]
    {
      buf[at + k] := data[k];
      assert data[..k + 1] == data[..k] + [data[k]];
    }
  }

  /** The client: lines 34-50 are its fields, lines 54-143 its loop. */
  class Client {
    const m: Machine
    const to: array<byte>
    const from: array<byte>
    var toi: nat
    var too: nat
    var fromi: nat
    var fromo: nat
    var stdineof: int

    constructor (machine: Machine)
      requires machine.Valid() && machine.s == Start(machine.s.cap, machine.s.patience, machine.s.input)
      ensures m == machine && Agrees() && fresh(to) && fresh(from)
    {
      m := machine;
      to := new byte[machine.s.cap](_ => 0);
      from := new byte[machine.s.cap](_ => 0);
      toi, too, fromi, fromo, stdineof := 0, 0, 0, 0, 0;
    }

    // The arrays and pointers hold the two queues.
    ghost predicate ArraysAgree()
      reads this, to, from, m
    {
      && to != from && to.Length == from.Length == m.start.cap
      && too <= toi <= to.Length && m.s.d.to == Buffer(too, to[too..toi])
      && fromo <= fromi <= from.Length && m.s.d.from == Buffer(fromo, from[fromo..fromi])
    }

    ghost predicate Agrees()
      reads this, to, from, m
    {
      && ArraysAgree()
      && stdineof == (if m.s.d.eof then 1 else 0)
    }

    lemma Roots()
      requires m.Valid() && Agrees()
      ensures m.sockfd > STDOUT && to.Length == m.s.cap && m.s.pc != Died
      ensures m.s.pc == AtReadStdin ==> stdineof == 0
    {
    }

    lemma Sizes()
      requires Agrees()
      ensures m.s.d.to.held == to[too..toi] && |m.s.d.to.held| == toi - too
      ensures m.s.d.from.held == from[fromo..fromi] && |m.s.d.from.held| == fromi - fromo
      ensures stdineof == (if m.s.d.eof then 1 else 0)
    {
    }

    // Lines 56-69: build the sets and wait.
    method Select() returns (rset: set<nat>, wset: set<nat>)
      requires m.Valid() && Agrees() && m.s.pc == AtSelect
      modifies m
      ensures m.Valid() && Agrees() && Work(m.s) < Work(old(m.s))
      ensures m.s.sets == m.Bits(rset, wset)
      ensures m.s.pc == if STDIN in rset then AtReadStdin else FromSock(m.s.d, m.s.sets)
    {
      Roots();
      var maxfdp1 := Max(Max(STDOUT, STDIN), m.sockfd) + 1;
      hide Inv, Work, IsRun, End, FromSock, Max;
      var r: set<nat>, w: set<nat> := {}, {};
      if stdineof == 0 && toi < to.Length {
        r := r + {STDIN};
      }
      if fromi < from.Length {
        r := r + {m.sockfd};
      }
      if too != toi {
        w := w + {m.sockfd};
      }
      if fromi != fromo {
        w := w + {STDOUT};
      }
      rset, wset := m.SelectCall(maxfdp1, r, w);
    }

    // Lines 74 and 88: read into the free end of `to`.
    method ReadIntoTo() returns (n: int)
      requires m.Valid() && ArraysAgree() && m.s.pc == AtReadStdin
      modifies this`toi, to, m
      ensures m.Valid() && ArraysAgree() && Work(m.s) < Work(old(m.s))
      ensures m.s.d.eof == (n == 0)
      ensures m.s.sets == if n > 0 then old(m.s).sets.(wSock := true) else old(m.s).sets
      ensures m.s.pc == if n == 0 && m.s.d.to.held == [] then AtShutEarly else FromSock(m.s.d, m.s.sets)
    {
      hide Inv, Work, IsRun, End, FromSock, Machine.Valid;
      n := m.ReadStdinCall(to, toi);
      if n > 0 {
        assert to[too..toi] + to[toi..toi + n] == to[too..toi + n];
        toi := toi + n;
      }
    }

    // Lines 81-84: note the end of stdin, and send the FIN if nothing is left to send.
    method EndOfStdin()
      requires m.Valid() && m.s.d.eof && stdineof == 0
      requires ArraysAgree()
      requires m.s.pc == if m.s.d.to.held == [] then AtShutEarly else FromSock(m.s.d, m.s.sets)
      modifies this`stdineof, m
      ensures m.Valid() && ArraysAgree() && Work(m.s) <= Work(old(m.s)) && stdineof == 1
      ensures m.s.d.eof && m.s.sets == old(m.s).sets
      ensures m.s.pc == FromSock(m.s.d, m.s.sets)
    {
      hide Inv, Work, IsRun, End, FromSock, Machine.Valid;
      stdineof := 1;
      if too == toi {
        m.ShutdownCall();
      }
    }

    // Lines 74-90.
    method FromStdin(wset: set<nat>) returns (wset': set<nat>)
      requires m.Valid() && Agrees() && m.s.pc == AtReadStdin
      requires m.s.sets.wOut == (STDOUT in wset) && m.s.sets.wSock == (m.sockfd in wset)
      modifies this`toi, this`stdineof, to, m
      ensures m.Valid() && Agrees() && Work(m.s) < Work(old(m.s))
      ensures m.s.sets.wOut == (STDOUT in wset') && m.s.sets.wSock == (m.sockfd in wset')
      ensures m.s.sets.rSock == old(m.s).sets.rSock && m.s.pc == FromSock(m.s.d, m.s.sets)
    {
      Roots();
      hide Inv, Work, IsRun, End, FromSock, Machine.Valid, Client.ArraysAgree;
      var n := ReadIntoTo();
      wset' := wset;
      if n == 0 {
        EndOfStdin();
      } else if n > 0 {
        wset' := wset + {m.sockfd};
      }
    }

    // Lines 94 and 105: read into the free end of `from`.
    method ReadIntoFrom() returns (n: int)
      requires m.Valid() && Agrees() && m.s.pc == AtReadSock
      modifies this`fromi, from, m
      ensures m.Valid() && Agrees() && Work(m.s) < Work(old(m.s))
      ensures m.s.sets == if n > 0 then old(m.s).sets.(wOut := true) else old(m.s).sets
      ensures m.s.pc == if n == 0 then (if stdineof == 1 then Returned else Died) else FromOut(m.s.d, m.s.sets)
    {
      hide Inv, Work, IsRun, End, FromOut, Machine.Valid;
      n := m.ReadSockCall(from, fromi);
      if n > 0 {
        assert from[fromo..fromi] + from[fromi..fromi + n] == from[fromo..fromi + n];
        fromi := fromi + n;
      }
    }

    // Lines 94-107: true when the connection has ended.
    method FromSocket(wset: set<nat>) returns (wset': set<nat>, ended: bool)
      requires m.Valid() && Agrees() && m.s.pc == AtReadSock
      requires m.s.sets.wOut == (STDOUT in wset) && m.s.sets.wSock == (m.sockfd in wset)
      modifies this`fromi, from, m
      ensures m.Valid() && Agrees() && Work(m.s) < Work(old(m.s))
      ensures m.s.sets.wOut == (STDOUT in wset') && m.s.sets.wSock == (m.sockfd in wset')
      ensures m.s.pc == if ended then (if stdineof == 1 then Returned else Died) else FromOut(m.s.d, m.s.sets)
    {
      hide Inv, Work, IsRun, End, FromOut, Machine.Valid, Client.Agrees;
      Roots();
      var n := ReadIntoFrom();
      ended := n == 0;
      wset' := if n > 0 then wset + {STDOUT} else wset;
    }

    // Lines 110-129: true when stdout refuses.
    method ToStdout() returns (refused: bool)
      requires m.Valid() && Agrees() && m.s.pc == AtWriteOut
      modifies this`fromi, this`fromo, m
      ensures m.Valid() && Agrees() && Work(m.s) < Work(old(m.s)) && m.s.sets == old(m.s).sets
      ensures m.s.pc == if refused then AtSelect else FromSend(m.s.d, m.s.sets)
    {
      hide Inv, Work, IsRun, End, FromSend, Machine.Valid;
      var nwritten := m.WriteOutCall(from, fromo, fromi - fromo);
      refused := nwritten < 0;
      if !refused {
        assert from[fromo..fromi][nwritten..] == from[fromo + nwritten..fromi];
        fromo := fromo + nwritten;
        if fromo == fromi {
          fromo, fromi := 0, 0;
        }
      }
    }

    // Lines 130-142.
    method ToSocket()
      requires m.Valid() && Agrees() && m.s.pc == AtWriteSock
      modifies this`toi, this`too, m
      ensures m.Valid() && Agrees() && Work(m.s) < Work(old(m.s)) && m.s.pc == AtSelect
    {
      hide Inv, Work, IsRun, End, Machine.Valid;
      var nwritten := m.WriteSockCall(to, too, toi - too);
      if nwritten >= 0 {
        assert to[too..toi][nwritten..] == to[too + nwritten..toi];
        too := too + nwritten;
        if too == toi {
          too, toi := 0, 0;
          if stdineof == 1 {
            m.ShutdownCall();
          }
        }
      }
    }

    // str_cli: true for the normal return.  For every pattern of short and (finitely many) refused
    // calls it terminates and returns normally, having printed all of stdin but what is
    // left between fromoptr and fromiptr.
    method StrCli() returns (normal: bool)
      requires m.Valid() && Agrees() && m.s.pc == AtSelect
      modifies this`toi, this`too, this`fromi, this`fromo, this`stdineof, to, from, m
      ensures m.Valid() && Agrees() && normal && m.s.pc == Returned
      ensures m.s.d.output + from[fromo..fromi] == m.s.input
    {
      hide Inv, Work, IsRun, End, Machine.Valid, Client.Agrees;
      while true
        invariant m.Valid() && Agrees() && m.s.pc == AtSelect
        decreases Work(m.s)
      {
        var rset, wset := Select();
        Roots();
        if STDIN in rset {
          wset := FromStdin(wset);
        }
        if m.sockfd in rset {
          var ended;
          wset, ended := FromSocket(wset);
          if ended {
            Roots();
            Sizes();
            EndOfRun();
            return stdineof == 1;
          }
        }
        Sizes();
        if STDOUT in wset && fromi - fromo > 0 {
          var refused := ToStdout();
          if refused {
            continue;
          }
        }
        Sizes();
        if m.sockfd in wset && toi - too > 0 {
          ToSocket();
        }
      }
    }

    lemma EndOfRun()
      requires m.Valid()
      ensures m.s.pc == Returned ==> m.s.d.output + m.s.d.from.held == m.s.input
    {
      Kept(m.s);
    }
  }
}
