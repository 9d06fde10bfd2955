/**
 The server of Fleet, call by call beside its clients, does in every run what the select servers
 are proved to do round by round; so it is the slot-table server.
 */
module FleetTrace {
  import opened Bytes
  import opened EchoLink
  import opened Runs
  import opened Sockets
  import opened Clients
  import opened Fleet
  import opened Traces
  import Relay
  import SlotServer

  /* ----- rounds, one service at a time ----- */

  lemma {:induction false} ServeAllSame(w: World, s: set<nat>, r1: map<nat, Reading>, r2: map<nat, Reading>)
    requires w.Valid() && s <= w.table.Keys && s <= r1.Keys && s <= r2.Keys
    requires forall fd | fd in s :: r1[fd] == r2[fd]
    ensures ServeAll(w, s, r1) == ServeAll(w, s, r2)
    decreases s
  {
    hide World.Valid, Serve;
    if s != {} {
      var m := Least(s);
      ServeAllSame(Serve(w, m, r1[m]), s - {m}, r1, r2);
    }
  }

  // Serving one more, above all the others.
  lemma {:induction false} ServeAllLast(w: World, s: set<nat>, x: nat, readings: map<nat, Reading>)
    requires w.Valid() && x !in s && s + {x} <= w.table.Keys && s + {x} <= readings.Keys
    requires forall y | y in s :: y < x
    ensures x in ServeAll(w, s, readings).table
    ensures ServeAll(w, s + {x}, readings) == Serve(ServeAll(w, s, readings), x, readings[x])
    decreases s
  {
    hide World.Valid, Serve;
    var all := s + {x};
    var m := Least(all);
    if s == {} {
      assert all == {x} && all - {x} == {};
    } else {
      assert m in s && m == Least(s);
      assert all - {m} == (s - {m}) + {x};
      ServeAllLast(Serve(w, m, readings[m]), s - {m}, x, readings);
    }
  }

  lemma {:induction false} RoundsAppend(w: World, past: seq<Choice>, c: Choice)
    requires w.Valid() && PossibleRun(w, past) && Possible(Rounds(w, past), c)
    ensures PossibleRun(w, past + [c]) && Rounds(w, past + [c]) == Round(Rounds(w, past), c)
    decreases |past|
  {
    hide World.Valid, Possible, Round;
    if past == [] {
      assert [] + [c] == [c] && [c][1..] == [];
      assert PossibleRun(Round(w, c), []);
    } else {
      assert (past + [c])[1..] == past[1..] + [c];
      RoundsAppend(Round(w, past[0]), past[1..], c);
    }
  }

  /* ----- where the server is in a round ----- */

  ghost predicate Selected(base: World, ready: set<nat>) {
    && base.Valid() && ready != {} && ready <= {base.listenfd} + base.table.Keys
    && (base.listenfd in ready ==> base.backlog != [] && NextFd(base) < FD_SETSIZE)
  }

  // The clients in now.readings have been served, or are being served; the others come after them.
  ghost predicate InRound(base: World, now: Choice) {
    && Selected(base, now.readable) && now.readings.Keys <= now.readable - {base.listenfd}
    && (forall fd | fd in now.readings :: now.readings[fd].Chunk? && now.readings[fd].size >= 1)
    && (forall x, y | x in now.readings && y in now.readable - {base.listenfd} - now.readings.Keys :: x < y)
  }

  ghost function Begun(base: World, now: Choice): (w: World)
    requires Selected(base, now.readable)
    ensures w.Valid() && now.readable - {base.listenfd} <= w.table.Keys && w.listenfd == base.listenfd
  {
    if base.listenfd in now.readable then Accepted(base) else base
  }

  // The world once the clients in `done` have been served.
  ghost function After(base: World, now: Choice, done: set<nat>): (w: World)
    requires InRound(base, now) && done <= now.readings.Keys
    ensures w.Valid() && now.readable - {base.listenfd} - done <= w.table.Keys && w.listenfd == base.listenfd
  {
    ServeAll(Begun(base, now), done, now.readings)
  }

  ghost predicate Latest(now: Choice, fd: nat) {
    fd in now.readings && forall x | x in now.readings :: x <= fd
  }

  ghost predicate Traced(start: World, s: State) {
    && start.Valid() && PossibleRun(start, s.past) && NoneFails(s.past, start.listenfd)
    && var base, now := Rounds(start, s.past), s.now;
       match s.pc
       case AtSelect => s.w == base && now == Choice({}, map[])
       case AtAccept =>
         s.w == base && Selected(base, now.readable) && base.listenfd in now.readable && now.readings == map[]
       case AtRead => InRound(base, now) && s.w == After(base, now, now.readings.Keys)
       case AtWrite(fd, data) =>
         && InRound(base, now) && Latest(now, fd) && data != []
         && var w := After(base, now, now.readings.Keys - {fd});
            Answer(w, fd, now.readings[fd]) == (|data|, data) && s.w == AfterRead(w, fd, now.readings[fd])
       case AtClose(fd) =>
         && InRound(base, now) && Latest(now, fd)
         && var w := After(base, now, now.readings.Keys - {fd});
            Answer(w, fd, now.readings[fd]) == (0, []) && s.w == AfterRead(w, fd, now.readings[fd])
  }

  // After a service, and perhaps at the end of the round.
  lemma ServedTraced(start: World, s: State)
    requires start.Valid() && PossibleRun(start, s.past) && NoneFails(s.past, start.listenfd)
    requires var base := Rounds(start, s.past);
             && InRound(base, s.now) && s.w == After(base, s.now, s.now.readings.Keys)
    ensures Traced(start, s.Served())
  {
    hide World.Valid, InRound, After, Possible, Round, Rounds, PossibleRun;
    if s.Todo() == {} {
      RoundDone(Rounds(start, s.past), s.now);
      RoundsAppend(start, s.past, s.now);
    }
  }

  // When all ready clients have been served the round is complete.
  lemma RoundDone(base: World, now: Choice)
    requires InRound(base, now) && now.readable - {base.listenfd} - now.readings.Keys == {}
    ensures Possible(base, now) && After(base, now, now.readings.Keys) == Round(base, now)
    ensures !now.Fails(base.listenfd)
  {
    hide World.Valid, Accepted, ServeAll, NextFd;
    assert now.readings.Keys == now.readable - {base.listenfd};
  }

  lemma RoomForOne(s: State)
    requires Inv(s) && s.w.listenfd + |s.clients| < FD_SETSIZE
    ensures s.w.backlog != [] ==> NextFd(s.w) < FD_SETSIZE
  {
    hide World.Valid, Coupled, NextFd;
    NextFdBound(s.w);
  }

  lemma SelectTraced(start: World, s: State, ready: set<nat>)
    requires Inv(s) && Traced(start, s) && Enabled(s, Select(ready)) && s.w.listenfd + |s.clients| < FD_SETSIZE
    ensures Traced(start, Step(s, Select(ready)))
  {
    hide World.Valid, Coupled, PcOk, Inv, Accepted, NextFd, Rounds, CanServe;
    RoomForOne(s);
    NoneReady(s.w, map[]);
  }

  lemma AcceptTraced(start: World, s: State)
    requires Traced(start, s) && Enabled(s, AcceptNext)
    ensures Traced(start, Step(s, AcceptNext))
  {
    hide World.Valid, NextFd;
    NoneReady(Accepted(s.w), map[]);
    ServedTraced(start, s.(w := Accepted(s.w)));
  }

  // What the read returns, and that it belongs to the round.
  lemma ReadAnswers(s: State, fd: nat, n: nat)
    requires Inv(s) && Enabled(s, ReadNext(fd, n))
    ensures Answer(s.w, fd, Chunk(Max(n, 1))).0 == n == |Answer(s.w, fd, Chunk(Max(n, 1))).1|
  {
    hide World.Valid, AfterRead, Answer, Coupled;
    CoupledBehind(s, fd);
    if n > 0 {
      ReadKeeps(s.w, fd, s.Client(fd), n);
    } else {
      EndKeeps(s.w, fd, s.Client(fd));
    }
  }

  lemma ReadInRound(base: World, now: Choice, fd: nat, r: Reading) returns (now': Choice)
    requires InRound(base, now) && r.Chunk? && r.size >= 1
    requires fd in now.readable - {base.listenfd} - now.readings.Keys
    requires forall y | y in now.readable - {base.listenfd} - now.readings.Keys :: fd <= y
    ensures now' == now.(readings := now.readings[fd := r]) && InRound(base, now') && Latest(now', fd)
    ensures now'.readings.Keys - {fd} == now.readings.Keys
    ensures After(base, now', now'.readings.Keys - {fd}) == After(base, now, now.readings.Keys)
  {
    hide World.Valid, Accepted, ServeAll, NextFd;
    now' := now.(readings := now.readings[fd := r]);
    assert now'.readings.Keys - {fd} == now.readings.Keys;
    assert forall y | y in now.readable - {base.listenfd} - now'.readings.Keys ::
        y in now.readable - {base.listenfd} - now.readings.Keys && y != fd;
    ServeAllSame(Begun(base, now), now.readings.Keys, now.readings, now'.readings);
  }

  lemma ReadTraced(start: World, s: State, fd: nat, n: nat)
    requires Inv(s) && Traced(start, s) && Enabled(s, ReadNext(fd, n))
    ensures Traced(start, Step(s, ReadNext(fd, n)))
  {
    hide World.Valid, AfterRead, Answer, Coupled, InRound, After, CanServe, Rounds, Inv, Latest;
    ReadAnswers(s, fd, n);
    var now' := ReadInRound(Rounds(start, s.past), s.now, fd, Chunk(Max(n, 1)));
  }

  lemma ServeWrites(w: World, fd: nat, r: Reading, data: seq<byte>)
    requires w.Valid() && fd in w.table && Answer(w, fd, r) == (|data|, data)
    ensures data != [] ==> Serve(w, fd, r) == AfterWrite(AfterRead(w, fd, r), fd, data)
    ensures data == [] ==> Serve(w, fd, r) == AfterClose(AfterRead(w, fd, r), fd)
  {
    hide World.Valid, AfterRead, AfterWrite, AfterClose, Answer;
  }

  lemma WriteTraced(start: World, s: State)
    requires Traced(start, s) && Enabled(s, WriteBack)
    ensures Traced(start, Step(s, WriteBack))
  {
    hide World.Valid, AfterRead, AfterWrite, Answer, InRound, After, CanServe, Rounds, State.Served, Serve, Latest;
    var base, fd := Rounds(start, s.past), s.pc.fd;
    OneMore(base, s.now, fd);
    ServeWrites(After(base, s.now, s.now.readings.Keys - {fd}), fd, s.now.readings[fd], s.pc.data);
    var t := s.(w := AfterWrite(s.w, fd, s.pc.data), clients := Linked(s, fd, Put));
    ServedTraced(start, t);
  }

  lemma CloseTraced(start: World, s: State)
    requires Traced(start, s) && Enabled(s, CloseEnded)
    ensures Traced(start, Step(s, CloseEnded))
  {
    hide World.Valid, AfterRead, AfterClose, Answer, InRound, After, CanServe, Rounds, State.Served, Serve, Latest;
    var base, fd := Rounds(start, s.past), s.pc.fd;
    OneMore(base, s.now, fd);
    ServeWrites(After(base, s.now, s.now.readings.Keys - {fd}), fd, s.now.readings[fd], []);
    var t := s.(w := AfterClose(s.w, fd), clients := Linked(s, fd, Shut));
    ServedTraced(start, t);
  }

  // The client read last is above all that were served before it.
  lemma OneMore(base: World, now: Choice, fd: nat)
    requires InRound(base, now) && Latest(now, fd)
    ensures fd in now.readings && fd in After(base, now, now.readings.Keys - {fd}).table
    ensures After(base, now, now.readings.Keys)
         == Serve(After(base, now, now.readings.Keys - {fd}), fd, now.readings[fd])
  {
    hide World.Valid, Accepted, Serve;
    var done := now.readings.Keys - {fd};
    assert done + {fd} == now.readings.Keys;
    ServeAllLast(Begun(base, now), done, fd, now.readings);
  }

  lemma StepTraced(start: World, s: State, a: Action)
    requires Inv(s) && Traced(start, s) && Enabled(s, a) && s.w.listenfd + |s.clients| < FD_SETSIZE
    ensures Traced(start, Step(s, a))
  {
    hide Inv, Traced, Fleet.Step;
    match a
    case OfClient(i, b) => ClientTraced(start, s, i, b);
    case Select(ready) => SelectTraced(start, s, ready);
    case AcceptNext => AcceptTraced(start, s);
    case ReadNext(fd, n) => ReadTraced(start, s, fd, n);
    case WriteBack => WriteTraced(start, s);
    case CloseEnded => CloseTraced(start, s);
  }

  lemma ClientTraced(start: World, s: State, i: nat, b: Relay.Action)
    requires Traced(start, s) && Enabled(s, OfClient(i, b))
    ensures Traced(start, Step(s, OfClient(i, b)))
  {
  }

  lemma RunTraced(start: World, s: State, run: seq<Action>)
    requires Inv(s) && Traced(start, s) && s.w.listenfd + |s.clients| < FD_SETSIZE
    requires IsRun(Enabled, Step, s, run)
    ensures Traced(start, End(Enabled, Step, s, run))
  {
    hide Inv, Traced;
    var same := (t: State) => Inv(t) && Traced(start, t) && t.w.listenfd + |Inputs(t.clients)| < FD_SETSIZE;
    assert |Inputs(s.clients)| == |s.clients|;
    forall t, a | same(t) && Enabled(t, a) ensures same(Step(t, a)) {
      StepKeeps(t, a);
      assert |Inputs(t.clients)| == |t.clients|;
      StepTraced(start, t, a);
    }
    Always(Enabled, Step, same, s, run);
  }

  // The slot-table server, given what the kernel answered in a run of clients and server, makes
  // the very calls the server made in that run.  They tell what has become of every connection,
  // and once all clients have returned, that each has been sent back all of its stdin and closed.
  method SlotServerServes(listenfd: nat, inputs: seq<seq<byte>>, choices: seq<Choice>, ghost run: seq<Action>)
    returns (trace: seq<Event>, complained: bool)
    requires listenfd + |inputs| < FD_SETSIZE && IsRun(Enabled, Step, Start(listenfd, inputs), run)
    requires var t := End(Enabled, Step, Start(listenfd, inputs), run); t.pc == AtSelect && t.past == choices
    ensures trace == End(Enabled, Step, Start(listenfd, inputs), run).w.trace && !complained
    ensures Answered(trace)
    ensures var t := End(Enabled, Step, Start(listenfd, inputs), run);
            (forall i | 0 <= i < |inputs| :: i < |t.clients| && t.clients[i].pc == Relay.Returned) ==>
              |Replay(trace)| == |inputs|
              && forall i | 0 <= i < |inputs| ::
                   var told := Replay(trace)[i]; told.got == told.put == inputs[i] && told.closed
  {
    var start := InitialWorld(listenfd, inputs);
    StartOk(listenfd, inputs);
    assert Traced(start, Start(listenfd, inputs));
    RunTraced(start, Start(listenfd, inputs), run);
    RunFromStartTold(listenfd, inputs, choices);
    ReturnedTold(listenfd, inputs, run);
    var kernel := new Kernel(start);
    var server := new SlotServer.Server(kernel, listenfd);
    server.Run(choices);
    trace, complained := kernel.world.trace, server.complained;
  }

  lemma ReturnedTold(listenfd: nat, inputs: seq<seq<byte>>, run: seq<Action>)
    requires IsRun(Enabled, Step, Start(listenfd, inputs), run)
    ensures var t := End(Enabled, Step, Start(listenfd, inputs), run);
            && t.w.Valid()
            && ((forall i | 0 <= i < |inputs| :: i < |t.clients| && t.clients[i].pc == Relay.Returned) ==>
              |Seen(t.w.conns)| == |inputs|
              && forall i | 0 <= i < |inputs| ::
                   var told := Seen(t.w.conns)[i]; told.got == told.put == inputs[i] && told.closed)
  {
    hide IsRun, End, Inv, Enabled, Step;
    var s := Start(listenfd, inputs);
    StartOk(listenfd, inputs);
    RunKeeps(s, run);
    var t := End(Enabled, Step, s, run);
    SizedNow(t);
    assert |t.clients| == |Inputs(t.clients)| == |Inputs(s.clients)| == |inputs|;
    if forall i | 0 <= i < |inputs| :: i < |t.clients| && t.clients[i].pc == Relay.Returned {
      forall i | 0 <= i < |inputs|
        ensures i < |t.w.conns|
        ensures var c := t.w.conns[i]; !c.open && c.input == c.echoed == inputs[i] && c.taken == |c.input|
      {
        ReturnedConn(t, i);
        assert t.clients[i].input == Inputs(t.clients)[i] == Inputs(s.clients)[i] == inputs[i];
      }
      if |inputs| > 0 {
        ReturnedConn(t, |inputs| - 1);
      }
    }
  }

  lemma SizedNow(s: State)
    requires Inv(s)
    ensures s.w.Valid() && |s.w.conns| <= |s.clients|
  {
  }
}
