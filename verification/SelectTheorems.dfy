/** What every run of the select servers keeps, and why the two servers agree. */
module SelectTheorems {
  import opened Bytes
  import opened Sockets
  import opened EchoLink
  import opened Traces
  import SlotServer
  import ScanServer

  /* ----- the two servers are trace equivalent ----- */

  // Started alike and given the same backlog, ready sets and read results, the slot-table
  // server and the scanning server make the same system calls with the same results.  The scanning
  // server stores outside its buffer exactly when a read fails or fills the buffer, and up to that
  // read the two agree.  In the calls every read is answered by a write of its data or by a close, and
  // they tell exactly what has become of every connection.
  method SameTraces(listenfd: nat, backlog: seq<seq<byte>>, choices: seq<Choice>)
    returns (slotTrace: seq<Event>, scanTrace: seq<Event>, undefined: bool)
    requires listenfd < FD_SETSIZE
    requires PossibleRun(InitialWorld(listenfd, backlog), choices)
    ensures var end := Rounds(InitialWorld(listenfd, backlog), choices);
            slotTrace == end.trace && Answered(slotTrace) && Replay(slotTrace) == Seen(end.conns)
    ensures undefined <==> ScanServer.RunStrays(InitialWorld(listenfd, backlog), choices)
    ensures scanTrace == ScanServer.UntilStray(slotTrace)
    ensures scanTrace <= slotTrace && (!undefined ==> scanTrace == slotTrace)
  {
    var slotKernel := new Kernel(InitialWorld(listenfd, backlog));
    var slots := new SlotServer.Server(slotKernel, listenfd);
    slots.Run(choices);
    var scanKernel := new Kernel(InitialWorld(listenfd, backlog));
    var scanner := new ScanServer.Server(scanKernel, listenfd);
    scanner.Run(choices);
    RunFromStartTold(listenfd, backlog, choices);
    ScanServer.UntilIsPrefix(slotKernel.world.trace);
    slotTrace, scanTrace, undefined := slotKernel.world.trace, scanKernel.world.trace, scanner.undefined;
  }

  /* ----- exact service ----- */

  ghost function Reads(t: seq<Event>, fd: nat): nat {
    if t == [] then 0
    else Reads(t[..|t| - 1], fd) + (if t[|t| - 1].Read? && t[|t| - 1].fd == fd then 1 else 0)
  }

  lemma ReadsAppend(t: seq<Event>, e: Event, fd: nat)
    ensures Reads(t + [e], fd) == Reads(t, fd) + (if e.Read? && e.fd == fd then 1 else 0)
  {
    assert (t + [e])[..|t|] == t;
  }

  lemma ServeReads(w: World, fd: nat, r: Reading, other: nat)
    requires w.Valid() && fd in w.table
    ensures Reads(Serve(w, fd, r).trace, other) == Reads(w.trace, other) + (if other == fd then 1 else 0)
  {
    var (n, data) := Answer(w, fd, r);
    var read := AfterRead(w, fd, r);
    ReadsAppend(w.trace, Read(fd, n, data), other);
    ReadsAppend(read.trace, Close(fd), other);
    ReadsAppend(read.trace, Write(fd, data), other);
  }

  lemma {:induction false} ServeAllReads(w: World, s: set<nat>, readings: map<nat, Reading>, fd: nat)
    requires w.Valid() && s <= w.table.Keys && s <= readings.Keys
    ensures Reads(ServeAll(w, s, readings).trace, fd) == Reads(w.trace, fd) + (if fd in s then 1 else 0)
    decreases s
  {
    if s != {} {
      var m := Least(s);
      ServeReads(w, m, readings[m], fd);
      ServeAllReads(Serve(w, m, readings[m]), s - {m}, readings, fd);
    }
  }

  // In one round every ready client is read exactly once, and nothing else is read: not the
  // listening socket, not an idle client, not the connection accepted in the same round.
  lemma ExactService(w: World, choice: Choice, fd: nat)
    requires w.Valid() && Possible(w, choice)
    ensures Reads(Sockets.Round(w, choice).trace, fd)
         == Reads(w.trace, fd) + (if fd in choice.readable && fd != w.listenfd then 1 else 0)
  {
    var w1 := if w.listenfd in choice.readable then Accepted(w) else w;
    if w.listenfd in choice.readable {
      ReadsAppend(w.trace, Accept(NextFd(w)), fd);
    }
    ServeAllReads(w1, choice.readable - {w.listenfd}, choice.readings, fd);
  }

  /* ----- echo isolation ----- */

  // Serving a descriptor touches no connection but the one it stands for.
  lemma ServeTouchesOne(w: World, fd: nat, r: Reading)
    requires w.Valid() && fd in w.table
    ensures |Serve(w, fd, r).conns| == |w.conns|
    ensures forall c | 0 <= c < |w.conns| && c != w.table[fd] :: Serve(w, fd, r).conns[c] == w.conns[c]
  {
  }

  lemma ServeFaithful(w: World, fd: nat, r: Reading)
    requires w.Valid() && fd in w.table && (r.Chunk? ==> r.size >= 1)
    requires w.conns[w.table[fd]].Faithful()
    ensures Serve(w, fd, r).conns[w.table[fd]].Faithful()
  {
    var c := w.conns[w.table[fd]];
    var (n, data) := Answer(w, fd, r);
    if n >= 0 {
      assert c.input[..c.taken] + data == c.input[..c.taken + n];
    }
  }

  lemma {:induction false} ServeAllFaithful(w: World, s: set<nat>, readings: map<nat, Reading>)
    requires w.Valid() && s <= w.table.Keys && s <= readings.Keys
    requires w.Faithful() && forall fd | fd in readings && readings[fd].Chunk? :: readings[fd].size >= 1
    ensures ServeAll(w, s, readings).Faithful()
    decreases s
  {
    if s != {} {
      var m := Least(s);
      hide World.Valid, Serve, Conn.Faithful;
      ServeTouchesOne(w, m, readings[m]);
      TableInRange(w, m);
      ServeFaithful(w, m, readings[m]);
      ServeAllFaithful(Serve(w, m, readings[m]), s - {m}, readings);
    }
  }

  lemma TableInRange(w: World, fd: nat)
    requires w.Valid() && fd in w.table
    ensures w.table[fd] < |w.conns|
  {
  }

  // Over every run, whichever descriptors are reused, each connection gets back exactly the
  // bytes read from it, in order, and all of them by the time it is closed normally.
  lemma {:induction false} RunFaithful(w: World, choices: seq<Choice>)
    requires w.Valid() && w.Faithful() && PossibleRun(w, choices)
    ensures Rounds(w, choices).Faithful()
    decreases |choices|
  {
    if choices != [] {
      RoundFaithful(w, choices[0]);
      RunFaithful(Sockets.Round(w, choices[0]), choices[1..]);
    }
  }

  lemma RoundFaithful(w: World, choice: Choice)
    requires w.Valid() && w.Faithful() && Possible(w, choice)
    ensures Sockets.Round(w, choice).Faithful()
  {
    var w1 := if w.listenfd in choice.readable then Accepted(w) else w;
    assert w1.Faithful();
    hide World.Valid, World.Faithful, Accepted, Serve;
    ServeAllFaithful(w1, choice.readable - {w.listenfd}, choice.readings);
  }

  /* ----- one connection of the server is one echo link ----- */

  // Connection c as an echo link, while its client has sent `sent` bytes of its input, perhaps its
  // FIN, and has received `got` bytes.  What has been read and not yet written back is held.
  function LinkAt(c: Conn, sent: nat, fin: bool, got: nat): Link
    requires got <= |c.echoed| <= c.taken <= sent <= |c.input|
  {
    Link(c.input[c.taken..sent], fin, c.input[|c.echoed|..c.taken], !c.open, c.echoed[got..])
  }

  // The bytes of a read that returns n are the first n that have been sent and not been read.
  lemma ReadIsTake(w: World, fd: nat, sent: nat, fin: bool, got: nat, n: nat)
    requires w.Valid() && fd in w.table && 1 <= n <= BUFSIZE
    requires var c := w.conns[w.table[fd]]; got <= |c.echoed| == c.taken <= c.taken + n <= sent <= |c.input|
    ensures var l := LinkAt(w.conns[w.table[fd]], sent, fin, got);
            && CanServe(l, Take(n)) && Answer(w, fd, Chunk(n)) == (n, l.up[..n])
            && LinkAt(AfterRead(w, fd, Chunk(n)).conns[w.table[fd]], sent, fin, got) == Served(l, Take(n))
  {
    var c := w.conns[w.table[fd]];
    assert c.input[c.taken..sent][n..] == c.input[c.taken + n..sent];
    assert c.input[c.taken..sent][..n] == c.input[c.taken..c.taken + n];
  }

  lemma WriteIsPut(w: World, fd: nat, sent: nat, fin: bool, got: nat, data: seq<byte>)
    requires w.Valid() && fd in w.table
    requires var c := w.conns[w.table[fd]];
             && got <= |c.echoed| < c.taken <= sent <= |c.input|
             && data == c.input[|c.echoed|..c.taken] && c.echoed == c.input[..|c.echoed|]
    ensures var l, c' := LinkAt(w.conns[w.table[fd]], sent, fin, got), AfterWrite(w, fd, data).conns[w.table[fd]];
            && CanServe(l, Put) && |c'.echoed| == c'.taken && c'.echoed == c'.input[..|c'.echoed|]
            && LinkAt(c', sent, fin, got) == Served(l, Put)
  {
    var c := w.conns[w.table[fd]];
    assert (c.echoed + data)[got..] == c.echoed[got..] + data;
  }

  lemma CloseIsShut(w: World, fd: nat, got: nat)
    requires w.Valid() && fd in w.table
    requires var c := w.conns[w.table[fd]]; got <= |c.echoed| == c.taken == |c.input|
    ensures var c := w.conns[w.table[fd]];
            var l := LinkAt(c, |c.input|, true, got);
            && CanServe(l, Shut) && Answer(w, fd, Chunk(1)) == (0, [])
            && LinkAt(AfterClose(w, fd).conns[w.table[fd]], |c.input|, true, got) == Served(l, Shut)
  {
  }

  // Serving a client, at whatever point of its sending and receiving, is on its own connection
  // exactly the server of EchoLink, against which the relay clients are proved: take a piece that
  // has been sent and put it back, or shut once the FIN has come and all has been read.
  lemma ServeIsLinkStep(w: World, fd: nat, sent: nat, fin: bool, got: nat, n: nat)
    requires w.Valid() && fd in w.table && n <= BUFSIZE
    requires var c := w.conns[w.table[fd]];
             && got <= |c.echoed| == c.taken <= c.taken + n <= sent <= |c.input| && c.echoed == c.input[..c.taken]
             && (fin ==> sent == |c.input|) && (n == 0 ==> fin && sent == c.taken)
    ensures var l := LinkAt(w.conns[w.table[fd]], sent, fin, got);
            var c' := Serve(w, fd, Chunk(Max(n, 1))).conns[w.table[fd]];
            if n > 0 then CanServe(l, Take(n)) && CanServe(Served(l, Take(n)), Put)
                          && LinkAt(c', sent, fin, got) == Served(Served(l, Take(n)), Put)
            else CanServe(l, Shut) && LinkAt(c', sent, fin, got) == Served(l, Shut)
  {
    var c := w.conns[w.table[fd]];
    if n > 0 {
      ReadIsTake(w, fd, sent, fin, got, n);
      var w1 := AfterRead(w, fd, Chunk(n));
      WriteIsPut(w1, fd, sent, fin, got, c.input[c.taken..c.taken + n]);
    } else {
      CloseIsShut(w, fd, got);
      assert c.input[c.taken..c.taken] == [];
    }
  }

  /* ----- the inputs of the connections never change ----- */

  ghost function Inputs(conns: seq<Conn>): seq<seq<byte>> {
    seq(|conns|, i requires 0 <= i < |conns| => conns[i].input)
  }

  // What all clients, served or waiting, send.
  ghost function Demand(w: World): seq<seq<byte>> {
    Inputs(w.conns) + w.backlog
  }

  lemma AcceptedDemand(w: World)
    requires w.Valid() && w.backlog != []
    ensures Demand(Accepted(w)) == Demand(w)
  {
    hide World.Valid, NextFd;
    assert Inputs(Accepted(w).conns) == Inputs(w.conns) + [w.backlog[0]];
    assert w.backlog == [w.backlog[0]] + w.backlog[1..];
  }

  lemma {:induction false} ServeAllDemand(w: World, s: set<nat>, readings: map<nat, Reading>)
    requires w.Valid() && s <= w.table.Keys && s <= readings.Keys
    ensures Demand(ServeAll(w, s, readings)) == Demand(w)
    decreases s
  {
    if s != {} {
      var m := Least(s);
      assert Inputs(Serve(w, m, readings[m]).conns) == Inputs(w.conns);
      ServeAllDemand(Serve(w, m, readings[m]), s - {m}, readings);
    }
  }

  lemma RoundDemand(w: World, choice: Choice)
    requires w.Valid() && Possible(w, choice)
    ensures Demand(Sockets.Round(w, choice)) == Demand(w)
  {
    if w.listenfd in choice.readable {
      AcceptedDemand(w);
    }
    ServeAllDemand(Admitted(w, choice), choice.readable - {w.listenfd}, choice.readings);
  }

  lemma {:induction false} RunDemand(w: World, choices: seq<Choice>)
    requires w.Valid() && PossibleRun(w, choices)
    ensures Demand(Rounds(w, choices)) == Demand(w)
    decreases |choices|
  {
    if choices != [] {
      RoundDemand(w, choices[0]);
      RunDemand(Sockets.Round(w, choices[0]), choices[1..]);
    }
  }

  /* ----- server drain ----- */

  // What is left to do for one connection: its unread bytes and its unseen end of input.
  ghost function Left(c: Conn): nat {
    if c.open && c.taken <= |c.input| then |c.input| - c.taken + 1 else 0
  }

  ghost function LeftAll(conns: seq<Conn>): nat {
    if conns == [] then 0 else LeftAll(conns[..|conns| - 1]) + Left(conns[|conns| - 1])
  }

  ghost function Waiting(backlog: seq<seq<byte>>): nat {
    if backlog == [] then 0 else |backlog[0]| + 2 + Waiting(backlog[1..])
  }

  ghost function Work(w: World): nat {
    Waiting(w.backlog) + LeftAll(w.conns)
  }

  lemma {:induction false} LeftUpdate(conns: seq<Conn>, i: nat, c: Conn)
    requires i < |conns|
    ensures LeftAll(conns[i := c]) + Left(conns[i]) == LeftAll(conns) + Left(c)
  {
    var k := |conns| - 1;
    if i == k {
      assert conns[i := c][..k] == conns[..k];
    } else {
      assert conns[i := c][..k] == conns[..k][i := c];
      LeftUpdate(conns[..k], i, c);
    }
  }

  lemma {:induction false} LeftPositive(conns: seq<Conn>, i: nat)
    requires i < |conns|
    ensures Left(conns[i]) <= LeftAll(conns)
  {
    if i < |conns| - 1 {
      LeftPositive(conns[..|conns| - 1], i);
    }
  }

  lemma AcceptWorks(w: World)
    requires w.Valid() && w.backlog != []
    ensures Work(Accepted(w)) == Work(w) - 1
  {
    var w' := Accepted(w);
    assert w'.conns[..|w.conns|] == w.conns;
  }

  lemma ServeWorks(w: World, fd: nat, r: Reading)
    requires w.Valid() && fd in w.table && (r.Chunk? ==> r.size >= 1)
    ensures Work(Serve(w, fd, r)) < Work(w)
  {
    var i := w.table[fd];
    var c := w.conns[i];
    var w' := Serve(w, fd, r);
    var (n, data) := Answer(w, fd, r);
    LeftUpdate(w.conns, i, w'.conns[i]);
    assert w'.conns == w.conns[i := w'.conns[i]];
  }

  lemma {:induction false} ServeAllWorks(w: World, s: set<nat>, readings: map<nat, Reading>)
    requires w.Valid() && s <= w.table.Keys && s <= readings.Keys
    requires forall fd | fd in readings && readings[fd].Chunk? :: readings[fd].size >= 1
    ensures Work(ServeAll(w, s, readings)) + |s| <= Work(w)
    decreases s
  {
    if s != {} {
      var m := Least(s);
      ServeWorks(w, m, readings[m]);
      ServeAllWorks(Serve(w, m, readings[m]), s - {m}, readings);
    }
  }

  // A round does at least one unit of the remaining work for every ready descriptor.
  lemma RoundWorks(w: World, choice: Choice)
    requires w.Valid() && Possible(w, choice)
    ensures Work(Sockets.Round(w, choice)) + |choice.readable| <= Work(w)
  {
    WithoutMember(choice.readable, w.listenfd);
    if w.listenfd in choice.readable {
      AcceptWorks(w);
    }
    ServeAllWorks(if w.listenfd in choice.readable then Accepted(w) else w,
                  choice.readable - {w.listenfd}, choice.readings);
  }

  lemma {:induction false} RunWorks(w: World, choices: seq<Choice>)
    requires w.Valid() && PossibleRun(w, choices)
    ensures Work(Rounds(w, choices)) + |choices| <= Work(w)
    decreases |choices|
  {
    if choices != [] {
      RoundWorks(w, choices[0]);
      assert choices[0].readable != {};
      RunWorks(Sockets.Round(w, choices[0]), choices[1..]);
    }
  }

  // select can return again exactly as long as there is work left.
  lemma QuietMeansDone(w: World)
    requires w.Valid() && w.listenfd + 1 < FD_SETSIZE
    ensures (exists choice :: Possible(w, choice)) <==> Work(w) > 0
    ensures Work(w) == 0 ==> w.table == map[] && w.backlog == []
  {
    if c :| 0 <= c < |w.conns| && w.conns[c].open {
      LeftPositive(w.conns, c);
      var fd := w.conns[c].fd;
      assert Possible(w, Choice({fd}, map[fd := Chunk(1)]));
    } else {
      AllClosed(w.conns);
      assert w.table.Keys == {};
      if w.backlog != [] {
        assert Possible(w, Choice({w.listenfd}, map[]));
      } else {
        forall choice ensures !Possible(w, choice) {
        }
      }
    }
  }

  lemma {:induction false} AllClosed(conns: seq<Conn>)
    requires forall c | 0 <= c < |conns| :: !conns[c].open
    ensures LeftAll(conns) == 0
  {
    if conns != [] {
      AllClosed(conns[..|conns| - 1]);
    }
  }

  // However the kernel schedules it, a run ends (RunWorks), and when select would block for ever
  // every client has been accepted in turn and, unless a read from it failed, has got back
  // exactly what it sent.
  lemma QuietRun(listenfd: nat, backlog: seq<seq<byte>>, choices: seq<Choice>)
    requires listenfd + 1 < FD_SETSIZE
    requires PossibleRun(InitialWorld(listenfd, backlog), choices)
    requires !exists choice :: Possible(Rounds(InitialWorld(listenfd, backlog), choices), choice)
    ensures var end := Rounds(InitialWorld(listenfd, backlog), choices);
            && end.table == map[] && |end.conns| == |backlog|
            && forall c | 0 <= c < |backlog| :: !end.conns[c].failed ==> end.conns[c].echoed == backlog[c]
  {
    var start := InitialWorld(listenfd, backlog);
    var end := Rounds(start, choices);
    StartFaithful(listenfd, backlog);
    hide World.Valid, World.Faithful, Conn.Faithful, Rounds, PossibleRun, InitialWorld, Possible;
    QuietMeansDone(end);
    RunFaithful(start, choices);
    RunDemand(start, choices);
    DrainedFaithfully(end, backlog);
  }

  // Without failing reads this holds of every client.
  lemma QuietRunComplete(listenfd: nat, backlog: seq<seq<byte>>, choices: seq<Choice>)
    requires listenfd + 1 < FD_SETSIZE
    requires PossibleRun(InitialWorld(listenfd, backlog), choices) && NoneFails(choices, listenfd)
    requires !exists choice :: Possible(Rounds(InitialWorld(listenfd, backlog), choices), choice)
    ensures var end := Rounds(InitialWorld(listenfd, backlog), choices);
            && end.table == map[] && |end.conns| == |backlog|
            && forall c | 0 <= c < |backlog| :: end.conns[c].echoed == backlog[c]
  {
    hide World.Valid, Rounds, PossibleRun, Possible, RunFails;
    var start := InitialWorld(listenfd, backlog);
    StartFaithful(listenfd, backlog);
    QuietRun(listenfd, backlog, choices);
    forall c | 0 <= c < |backlog| ensures !Rounds(start, choices).conns[c].failed {
      FailedExactly(start, choices, c);
      NoneHasFailed(start, choices, c);
      assert !HasFailed(start, c);
    }
  }

  lemma StartFaithful(listenfd: nat, backlog: seq<seq<byte>>)
    ensures var w := InitialWorld(listenfd, backlog);
            w.Valid() && w.Faithful() && Demand(w) == backlog && w.listenfd == listenfd
  {
  }

  lemma DrainedFaithfully(w: World, inputs: seq<seq<byte>>)
    requires w.Faithful() && Demand(w) == inputs && w.backlog == [] && LeftAll(w.conns) == 0
    ensures |w.conns| == |inputs|
    ensures forall c | 0 <= c < |inputs| :: !w.conns[c].failed ==> w.conns[c].echoed == inputs[c]
  {
    assert Demand(w) == Inputs(w.conns);
    forall c | 0 <= c < |inputs| && !w.conns[c].failed ensures w.conns[c].echoed == inputs[c] {
      assert w.conns[c].Faithful() && Inputs(w.conns)[c] == inputs[c];
      LeftPositive(w.conns, c);
    }
  }

  // The slot-table server after such a run: every slot is free and only the listening socket
  // is watched.
  method RunToTheEnd(listenfd: nat, backlog: seq<seq<byte>>, choices: seq<Choice>)
    returns (client: seq<int>, allset: set<nat>, complained: bool)
    requires listenfd + 1 < FD_SETSIZE
    requires PossibleRun(InitialWorld(listenfd, backlog), choices)
    requires !exists choice :: Possible(Rounds(InitialWorld(listenfd, backlog), choices), choice)
    ensures |client| == FD_SETSIZE && forall i | 0 <= i < FD_SETSIZE :: client[i] == -1
    ensures allset == {listenfd} && !complained
  {
    var kernel := new Kernel(InitialWorld(listenfd, backlog));
    var s := new SlotServer.Server(kernel, listenfd);
    s.Run(choices);
    QuietRun(listenfd, backlog, choices);
    assert kernel.world.table.Keys == {};
    client, allset, complained := s.client[..], s.allset, s.complained;
    forall i | 0 <= i < FD_SETSIZE ensures client[i] == -1 {
      SlotServer.SlotAt(listenfd, {}, i);
    }
  }
}
