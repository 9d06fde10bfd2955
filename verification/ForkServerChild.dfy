/**
 What a child of the forking server runs (07/server.c: str_echo, and lines 113-117 of main01), in
 its own form.  Process is the kernel under child `me`: before each of its system calls the
 parent, the handler, the other children and the clients may take any number of steps.
 */
module ForkServerChild {
  import opened Bytes
  import opened EchoLink
  import opened Runs
  import opened ForkServer

  // Steps of everyone but child me.
  predicate OfOthers(a: Action, me: nat) {
    && (a.CloseListen? || a.Echo? || a.Exit? || a.Fail? ==> a.i != me)
  }

  // What the client behind child me adds to what it has sent.
  function Added(s: State, a: Action, me: nat): seq<byte>
    requires Enabled(s, a) && me < |s.conns|
  {
    if a.Client? && a.c == me && s.conns[me].up <= a.l.up then a.l.up[|s.conns[me].up|..] else []
  }

  // While child me runs, nobody else touches it or reads its connection.
  lemma OthersStep(s: State, a: Action, me: nat)
    requires Inv(s) && Enabled(s, a) && OfOthers(a, me) && me < |s.kids| && !Gone(s.kids[me])
    ensures me < |s.conns|
    ensures var t := Step(s, a);
            && me < |t.kids| && t.kids[me] == s.kids[me] && me < |t.conns|
            && t.conns[me].held == s.conns[me].held && t.conns[me].up == s.conns[me].up + Added(s, a, me)
            && (s.conns[me].fin ==> t.conns[me].fin && Added(s, a, me) == [])
  {
    hide Refs, Remembered, ConnOk;
    if a.Echo? {
      EchoShows(s, a.i, a.a);
    }
  }

  // Child me can make its own calls.
  lemma OwnSteps(s: State, me: nat)
    requires Inv(s) && me < |s.kids| && !Gone(s.kids[me])
    ensures me < |s.conns| && s.kids[me].conn == me && !s.conns[me].closed
  {
    assert KidOk(s.kids[me], me) && ConnOk(s, me);
  }

  // How the kernel answers one call of read: a signal interrupts it, it fails, or it returns at
  // most so many bytes.
  datatype Answer = Signal | Failure | Bytes(most: nat)

  class Process {
    ghost const start: State
    ghost var path: seq<Action>
    const me: nat
    var s: State
    const answers: seq<Answer>   // to the calls of read, in order; beyond them, a byte at a time
    var calls: nat               // of read
    var budget: nat              // how many bytes the client has left to send
    var broken: bool             // a read has failed, and not because of a signal
    ghost var sent: seq<byte>     // by the client, so far
    ghost var echoed: seq<byte>   // back to it
    ghost var results: seq<int>   // of the calls of read

    // The child runs, and its steps and all others' are a run.
    ghost predicate Running()
      reads this
    {
      && IsRun(Enabled, Step, start, path) && End(Enabled, Step, start, path) == s && Inv(s)
      && me < |s.kids| && me < |s.conns|
    }

    ghost predicate Valid()
      reads this
    {
      && Running() && !Gone(s.kids[me])
      && echoed + s.conns[me].held + s.conns[me].up == sent
      && calls == |results| && (forall n | n in results :: n <= |sent|)
    }

    // The answer to the k-th call.
    function AnswerTo(k: nat): Answer {
      if k < |answers| then answers[k] else Bytes(1)
    }

    // Just forked: nothing has been read from the connection.
    constructor (at: State, child: nat, bytes: nat, kernel: seq<Answer>)
      requires Inv(at) && child < |at.kids| && at.kids[child].life == Starting
      requires child < |at.conns| && at.conns[child].held == []
      ensures Valid() && s == at && me == child && budget == bytes && answers == kernel && !broken && results == []
    {
      start, path, s, me, budget, broken := at, [], at, child, bytes, false;
      sent, echoed, results, calls, answers := at.conns[child].up, [], [], 0, kernel;
    }

    // What the environment may still do to the child's loop.
    ghost function Ahead(): nat
      reads this
      requires me < |s.conns|
    {
      |s.conns[me].up| + budget + Max(|answers| - calls, 0)
    }

    method Do(a: Action)
      requires Running() && Enabled(s, a) && me < |Step(s, a).kids| && me < |Step(s, a).conns|
      modifies this`path, this`s
      ensures Running() && s == Step(old(s), a)
    {
      hide IsRun, End, Inv, Step, Enabled;
      path := Extend(Enabled, Step, start, path, a);
      StepKeeps(s, a);
      s := Step(s, a);
    }

    // Everyone else runs for as long as the scheduler likes.
    method RunOthers()
      requires Valid()
      modifies this`path, this`s, this`budget, this`sent
      ensures Valid() && s.kids[me] == old(s).kids[me] && s.conns[me].held == old(s).conns[me].held
      ensures Ahead() <= old(Ahead()) && old(sent) <= sent
      ensures old(s).conns[me].fin ==> s.conns[me].fin && s.conns[me].up == old(s).conns[me].up
    {
      hide IsRun, End, Inv, Step, Enabled;
      var steps: nat :| steps >= 0;
      for k := 0 to steps
        invariant Valid() && s.kids[me] == old(s).kids[me] && s.conns[me].held == old(s).conns[me].held
        invariant Ahead() <= old(Ahead()) && old(sent) <= sent
        invariant old(s).conns[me].fin ==> s.conns[me].fin && s.conns[me].up == old(s).conns[me].up
      {
        var a: Action := *;
        if Enabled(s, a) && OfOthers(a, me) && |Added(s, a, me)| <= budget {
          One(a);
        }
      }
    }

    method One(a: Action)
      requires Valid() && Enabled(s, a) && OfOthers(a, me) && |Added(s, a, me)| <= budget
      modifies this`path, this`s, this`budget, this`sent
      ensures Valid() && s.kids[me] == old(s).kids[me] && s.conns[me].held == old(s).conns[me].held
      ensures Ahead() == old(Ahead()) && old(sent) <= sent
      ensures old(s).conns[me].fin ==> s.conns[me].fin && s.conns[me].up == old(s).conns[me].up
      ensures s == Step(old(s), a)
    {
      hide IsRun, End, Inv, Step, Enabled, Added;
      OthersStep(s, a, me);
      var more := Added(s, a, me);
      budget, sent := budget - |more|, sent + more;
      Do(a);
      Regroup(echoed + s.conns[me].held, old(s).conns[me].up, more);
    }

    // read(socketfd, buf, sizeof(buf)): sleeps until there is something to return.
    method ReadCall() returns (n: int, buf: seq<byte>, eintr: bool)
      requires Valid() && s.kids[me].life == Echoing && s.conns[me].held == [] && !broken
      modifies this
      ensures Valid() && s.kids[me].life == Echoing && old(sent) <= sent
      ensures results == old(results) + [n] && n <= BUFSIZE
      ensures n > 0 ==> n == |buf| && s.conns[me].held == buf && Ahead() < old(Ahead())
      ensures n <= 0 ==> s.conns[me].held == [] && Ahead() <= old(Ahead())
      ensures n == 0 ==> s.conns[me].fin && s.conns[me].up == []
      ensures n < 0 && eintr ==> Ahead() < old(Ahead())
      ensures broken <==> n < 0 && !eintr
      ensures broken <==> AnswerTo(old(calls)).Failure?
    {
      hide IsRun, End, Inv, Step, Enabled;
      RunOthers();
      var answer := AnswerTo(calls);
      buf, eintr := [], answer.Signal?;
      if eintr {
        n := -1;
      } else if answer.Failure? {
        broken, n := true, -1;
      } else {
        Wait();
        if s.conns[me].up == [] {
          n := 0;
        } else {
          n, buf := Take(answer.most);
        }
      }
      calls, results := calls + 1, results + [n];
    }

    // While nothing has arrived, it is for the client to act: it sends something, which other
    // schedules above cover, or it ends its input.
    method Wait()
      requires Valid()
      modifies this`path, this`s, this`budget, this`sent
      ensures Valid() && s.kids[me] == old(s).kids[me] && s.conns[me].held == old(s).conns[me].held
      ensures Ahead() <= old(Ahead()) && sent == old(sent)
      ensures s.conns[me].up != [] || s.conns[me].fin
    {
      hide IsRun, End, Inv;
      if s.conns[me].up == [] && !s.conns[me].fin {
        One(Client(me, s.conns[me].(fin := true)));
      }
    }

    method Take(most: nat) returns (n: int, buf: seq<byte>)
      requires Valid() && s.kids[me].life == Echoing && s.conns[me].held == [] && s.conns[me].up != []
      modifies this`path, this`s
      ensures Valid() && s.kids[me].life == Echoing
      ensures 0 < n == |buf| <= BUFSIZE && n <= |sent| && s.conns[me].held == buf && Ahead() < old(Ahead())
    {
      hide IsRun, End, Inv;
      OwnSteps(s, me);
      var l := s.conns[me];
      var k: nat := Min(Min(Max(most, 1), BUFSIZE), |l.up|);
      EchoKeeps(s, me, EchoLink.Take(k));
      Do(Echo(me, EchoLink.Take(k)));
      n, buf := k, l.up[..k];
      Cut(l.up, k);
      Regroup(echoed, l.up[..k], l.up[k..]);
      assert echoed + [] == echoed;
    }

    method WriteCall(buf: seq<byte>)
      requires Valid() && s.kids[me].life == Echoing && s.conns[me].held == buf != []
      modifies this`path, this`s, this`budget, this`sent, this`echoed
      ensures Valid() && s.kids[me].life == Echoing && s.conns[me].held == [] && old(sent) <= sent
      ensures Ahead() <= old(Ahead()) && echoed == old(echoed) + buf
    {
      hide IsRun, End, Inv;
      RunOthers();
      OwnSteps(s, me);
      EchoKeeps(s, me, Put);
      Do(Echo(me, Put));
      echoed := echoed + buf;
      assert echoed + [] == echoed;
    }

    // close(listenfd)
    method CloseListenCall()
      requires Valid() && s.kids[me].life == Starting
      modifies this`path, this`s, this`budget, this`sent
      ensures Valid() && s.kids[me].life == Echoing && old(sent) <= sent
      ensures s.conns[me].held == old(s).conns[me].held
    {
      hide IsRun, End, Inv;
      RunOthers();
      Do(CloseListen(me));
    }

    // exit(0)
    method ExitCall()
      requires Valid() && s.kids[me].life == Echoing && s.conns[me].held == []
      requires !broken ==> s.conns[me].fin && s.conns[me].up == []
      modifies this`path, this`s, this`budget, this`sent
      ensures Running() && s.kids[me].life == Zombie && s.kids[me].failed == broken
      ensures !broken ==> sent == echoed
    {
      hide IsRun, End, Inv;
      RunOthers();
      OwnSteps(s, me);
      assert !broken ==> echoed + [] + [] == sent;
      Do(if broken then Fail(me) else Exit(me));
    }
  }

  // str_echo's own calls change its connection and nothing else of the child.
  lemma EchoKeeps(s: State, me: nat, b: ServerStep)
    requires Inv(s) && me < |s.kids| && me < |s.conns| && s.kids[me].life == Echoing && s.kids[me].conn == me
    requires CanServe(s.conns[me], b) && !b.Shut?
    ensures Enabled(s, Echo(me, b))
    ensures var t := Step(s, Echo(me, b));
            t.kids == s.kids && t.conns == s.conns[me := Served(s.conns[me], b)]
  {
  }

  // Lines 37-60.  However the input is cut into reads, and however often they are interrupted, what
  // has been read is echoed in order, and all that the client sends unless a read really fails.
  // The kernel's answers decide whether one does.
  // A read that fills the buffer makes line 44 store one past it; the loop is followed until then.
  method StrEcho(m: Process) returns (overflow: bool)
    requires m.Valid() && m.s.kids[m.me].life == Echoing && m.s.conns[m.me].held == []
    requires !m.broken && m.results == []
    modifies m
    ensures m.Valid() && m.s.kids[m.me].life == Echoing && m.echoed <= m.sent
    ensures overflow <==> BUFSIZE in m.results
    ensures |m.sent| < BUFSIZE ==> !overflow
    ensures m.broken <==> exists k :: 0 <= k < |m.results| && m.AnswerTo(k).Failure?
    ensures !overflow ==> m.s.conns[m.me].held == []
    ensures !overflow && !m.broken ==> m.s.conns[m.me].fin && m.s.conns[m.me].up == [] && m.echoed == m.sent
  {
    hide IsRun, End, Inv;
    overflow := false;
    while true
      invariant m.Valid() && m.s.kids[m.me].life == Echoing && m.s.conns[m.me].held == []
      invariant !m.broken && BUFSIZE !in m.results
      invariant forall k | 0 <= k < |m.results| :: !m.AnswerTo(k).Failure?
      decreases m.Ahead()
    {
      ghost var left := m.Ahead();
      var n, buf, eintr := m.ReadCall();
      while n > 0
        invariant m.Valid() && m.s.kids[m.me].life == Echoing && m.Ahead() <= left
        invariant m.s.conns[m.me].held == (if n > 0 then buf else []) && n <= BUFSIZE && (n > 0 ==> n == |buf|)
        invariant forall r | r in m.results :: r == BUFSIZE ==> r == n
        invariant n == BUFSIZE ==> n in m.results
        invariant n == 0 ==> m.s.conns[m.me].fin && m.s.conns[m.me].up == []
        invariant n < 0 && eintr ==> m.Ahead() < left
        invariant m.broken <==> n < 0 && !eintr
        invariant m.broken <==> exists k :: 0 <= k < |m.results| && m.AnswerTo(k).Failure?
        decreases m.Ahead(), n
      {
        if n == BUFSIZE {
          return true;
        }
        m.WriteCall(buf);
        n, buf, eintr := m.ReadCall();
      }
      if n < 0 && eintr {
        continue;
      }
      break;
    }
  }

  // Lines 113-117 of main01: what the child does between fork and its end.  It ends as a zombie to be
  // waited for, having echoed all that its client sent unless a read failed.
  method ServeConnection(m: Process) returns (overflow: bool)
    requires m.Valid() && m.s.kids[m.me].life == Starting && m.s.conns[m.me].held == []
    requires !m.broken && m.results == []
    modifies m
    ensures m.Running() && (overflow <==> BUFSIZE in m.results)
    ensures !overflow ==> m.s.kids[m.me].life == Zombie && m.s.kids[m.me].failed == m.broken
    ensures !overflow && !m.broken ==> m.echoed == m.sent
    ensures m.broken <==> exists k :: 0 <= k < |m.results| && m.AnswerTo(k).Failure?
  {
    hide IsRun, End, Inv;
    m.CloseListenCall();
    overflow := StrEcho(m);
    if !overflow {
      m.ExitCall();
    }
  }
}
