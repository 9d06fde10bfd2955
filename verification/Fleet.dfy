/**
 Any number of select clients (07/client.c, str_cli) on the multiplexed server (07/server.c,
 main).  Every system call of every client and of the server is a step, so a run is one
 interleaving of them all; the server makes its calls in the order of its loop.
 */
module Fleet {
  import opened Bytes
  import opened EchoLink
  import opened Runs
  import opened Sockets
  import SelectTheorems
  import opened Clients
  import Relay

  // The call the server makes next: between a read and what follows it, it holds what it has read.
  datatype Pc = AtSelect | AtAccept | AtRead | AtWrite(fd: nat, data: seq<byte>) | AtClose(fd: nat)

  datatype State = State(
    w: World,
    pc: Pc,
    past: seq<Choice>,   // what the kernel has answered in the rounds completed,
    now: Choice,         // and so far in this one
    clients: seq<Relay.State>)
  {
    // The ready clients that have not been served in this round.
    function Todo(): set<nat> {
      now.readable - {w.listenfd} - now.readings.Keys
    }

    // The client behind a descriptor of the server.
    predicate Behind(fd: nat) {
      fd in w.table && w.table[fd] < |clients|
    }

    function Client(fd: nat): Relay.State
      requires Behind(fd)
    {
      clients[w.table[fd]]
    }

    // The end of one client's service, and perhaps of the round.
    function Served(): (t: State)
      ensures t.w == w && t.clients == clients && t.Todo() <= Todo()
      ensures t.pc == if Todo() == {} then AtSelect else AtRead
      ensures t.pc == AtRead ==> t.Todo() != {}
    {
      if Todo() == {} then State(w, AtSelect, past + [now], Choice({}, map[]), clients)
      else this.(pc := AtRead)
    }
  }

  function Start(listenfd: nat, inputs: seq<seq<byte>>): State {
    State(InitialWorld(listenfd, inputs), AtSelect, [], Choice({}, map[]),
          StartAll(inputs))
  }

  datatype Action =
    | OfClient(i: nat, a: Relay.Action)
    | Select(ready: set<nat>) | AcceptNext | ReadNext(fd: nat, n: nat) | WriteBack | CloseEnded

  // A read by the server would not block.
  predicate Arrived(l: Link) {
    l.up != [] || l.fin
  }

  // The server's side of a call on client fd is the step a of its echo link.
  predicate CanDo(s: State, fd: nat, a: ServerStep) {
    s.Behind(fd) && CanServe(s.Client(fd).link, a)
  }

  ghost predicate Enabled(s: State, a: Action) {
    s.w.Valid() &&
    match a
    case OfClient(i, b) => i < |s.clients| && !b.Server? && Relay.Enabled(s.clients[i], b)
    case Select(ready) =>
      && s.pc == AtSelect && ready != {} && ready <= {s.w.listenfd} + s.w.table.Keys
      && (s.w.listenfd in ready ==> s.w.backlog != [])
      && (forall fd | fd in ready && fd != s.w.listenfd :: s.Behind(fd) && Arrived(s.Client(fd).link))
    case AcceptNext => s.pc == AtAccept && s.w.backlog != []
    case ReadNext(fd, n) =>
      && s.pc == AtRead && fd in s.Todo() && (forall x | x in s.Todo() :: fd <= x)
      && CanDo(s, fd, if n > 0 then Take(n) else Shut)
    case WriteBack => s.pc.AtWrite? && CanDo(s, s.pc.fd, Put)
    case CloseEnded => s.pc.AtClose? && CanDo(s, s.pc.fd, Shut)
  }

  function Linked(s: State, fd: nat, a: ServerStep): seq<Relay.State>
    requires CanDo(s, fd, a)
  {
    s.clients[s.w.table[fd] := Relay.Step(s.Client(fd), Relay.Server(a))]
  }

  ghost function Step(s: State, a: Action): State
    requires Enabled(s, a)
  {
    match a
    case OfClient(i, b) => s.(clients := s.clients[i := Relay.Step(s.clients[i], b)])
    case Select(ready) =>
      s.(now := Choice(ready, map[]), pc := if s.w.listenfd in ready then AtAccept else AtRead)
    case AcceptNext => s.(w := Accepted(s.w)).Served()
    case ReadNext(fd, n) =>
      var r := Chunk(Max(n, 1));
      s.(w := AfterRead(s.w, fd, r), now := s.now.(readings := s.now.readings[fd := r]),
         pc := if n > 0 then AtWrite(fd, Answer(s.w, fd, r).1) else AtClose(fd),
         clients := if n > 0 then Linked(s, fd, Take(n)) else s.clients)
    case WriteBack =>
      s.(w := AfterWrite(s.w, s.pc.fd, s.pc.data), clients := Linked(s, s.pc.fd, Put)).Served()
    case CloseEnded =>
      s.(w := AfterClose(s.w, s.pc.fd), clients := Linked(s, s.pc.fd, Shut)).Served()
  }

  /* ----- what every step keeps ----- */

  // How much of its input a client has sent, and how much it has received.
  ghost function Sent(r: Relay.State): int {
    |r.input| - |r.unread| - |Relay.SockHeld(r)|
  }

  ghost function Got(r: Relay.State): nat {
    |r.output| + |Relay.OutHeld(r)|
  }

  // The i-th connection, accepted or not.
  ghost function ConnOf(w: World, i: nat): Conn
    requires i < |w.conns| + |w.backlog|
  {
    if i < |w.conns| then w.conns[i] else Conn(0, w.backlog[i - |w.conns|], 0, [], true, false)
  }

  // The client's link is the server's connection, seen from where the client is.
  ghost predicate Coupled(c: Conn, r: Relay.State) {
    && Relay.Inv(r) && r.halfClose && r.input == c.input
    && Got(r) <= |c.echoed| <= c.taken <= Sent(r) && c.echoed == c.input[..|c.echoed|]
    && r.link == SelectTheorems.LinkAt(c, Sent(r), r.link.fin, Got(r))
  }

  // What the server holds between two calls belongs to the connection it is serving.
  ghost predicate PcOk(s: State) {
    match s.pc
    case AtWrite(fd, data) => s.Behind(fd) && fd in s.now.readings && data == s.Client(fd).link.held != []
    case AtClose(fd) =>
      && s.Behind(fd) && fd in s.now.readings
      && s.Client(fd).link.fin && s.Client(fd).link.up == [] && s.Client(fd).link.held == []
    case AtAccept => s.w.backlog != []
    case AtRead => s.Todo() != {}
    case AtSelect => true
  }

  ghost predicate Holding(s: State, i: nat) {
    s.pc.AtWrite? && s.Behind(s.pc.fd) && s.w.table[s.pc.fd] == i
  }

  ghost predicate Sized(s: State) {
    && s.w.Valid() && |s.clients| == |s.w.conns| + |s.w.backlog|
    && |s.w.table| <= |s.w.conns| && s.w.peak <= |s.w.conns|
  }

  ghost predicate Inv(s: State) {
    && Sized(s)
    && (forall i | 0 <= i < |s.clients| ::
          Coupled(ConnOf(s.w, i), s.clients[i]) && (s.clients[i].link.held == [] || Holding(s, i)))
    && PcOk(s)
    && (s.pc != AtSelect ==> forall fd | fd in s.Todo() :: s.Behind(fd) && Arrived(s.Client(fd).link))
  }

  /* ----- one connection ----- */

  lemma Middle(a: seq<byte>, b: seq<byte>, c: seq<byte>)
    ensures (a + b + c)[|a|..|a| + |b|] == b
  {
  }

  // What the client is about to send is what follows in its input.
  lemma NextToSend(r: Relay.State)
    requires Relay.Inv(r)
    ensures 0 <= Sent(r) <= Sent(r) + |Relay.SockHeld(r)| <= |r.input|
    ensures r.input[Sent(r)..Sent(r) + |Relay.SockHeld(r)|] == Relay.SockHeld(r)
    ensures r.pc.AtWriteSock? ==> !r.link.fin
  {
    Middle(r.output + Relay.OutHeld(r) + r.link.InFlight(), Relay.SockHeld(r), r.unread);
  }

  lemma ClientSends(c: Conn, r: Relay.State)
    requires Coupled(c, r) && Relay.Enabled(r, Relay.WriteSock)
    ensures Coupled(c, Relay.Step(r, Relay.WriteSock))
  {
    hide Relay.Inv;
    NextToSend(r);
    Relay.StepKeeps(r, Relay.WriteSock);
    assert c.input[c.taken..Sent(r)] + Relay.SockHeld(r) == c.input[c.taken..Sent(r) + |Relay.SockHeld(r)|];
  }

  lemma ClientReceives(c: Conn, r: Relay.State, n: nat)
    requires Coupled(c, r) && Relay.Enabled(r, Relay.ReadSock(n))
    ensures Coupled(c, Relay.Step(r, Relay.ReadSock(n)))
  {
    hide Relay.Inv;
    Relay.StepKeeps(r, Relay.ReadSock(n));
    assert c.echoed[Got(r)..][n..] == c.echoed[Got(r) + n..];
  }

  lemma ClientRest(c: Conn, r: Relay.State, b: Relay.Action)
    requires Coupled(c, r) && !b.Server? && !b.WriteSock? && !b.ReadSock? && Relay.Enabled(r, b)
    ensures Coupled(c, Relay.Step(r, b))
  {
    hide Relay.Inv;
    Relay.StepKeeps(r, b);
  }

  // A call of the client.
  lemma ClientKeeps(c: Conn, r: Relay.State, b: Relay.Action)
    requires Coupled(c, r) && !b.Server? && Relay.Enabled(r, b)
    ensures var r' := Relay.Step(r, b);
            && Coupled(c, r') && r'.link.held == r.link.held
            && (Arrived(r.link) ==> Arrived(r'.link)) && (r.link.fin ==> r'.link.fin && r'.link.up == r.link.up)
  {
    hide Relay.Inv, SelectTheorems.LinkAt;
    NextToSend(r);
    match b
    case WriteSock => ClientSends(c, r);
    case ReadSock(n) => ClientReceives(c, r, n);
    case _ => ClientRest(c, r, b);
  }

  // The server's calls.
  lemma ReadKeeps(w: World, fd: nat, r: Relay.State, n: nat)
    requires w.Valid() && fd in w.table && Coupled(w.conns[w.table[fd]], r)
    requires n > 0 && CanServe(r.link, Take(n))
    ensures Answer(w, fd, Chunk(n)) == (n, r.link.up[..n])
    ensures Coupled(AfterRead(w, fd, Chunk(n)).conns[w.table[fd]], Relay.Step(r, Relay.Server(Take(n))))
  {
    hide Relay.Inv;
    Relay.StepKeeps(r, Relay.Server(Take(n)));
    SelectTheorems.ReadIsTake(w, fd, Sent(r), r.link.fin, Got(r), n);
  }

  lemma EndKeeps(w: World, fd: nat, r: Relay.State)
    requires w.Valid() && fd in w.table && Coupled(w.conns[w.table[fd]], r) && CanServe(r.link, Shut)
    ensures Answer(w, fd, Chunk(1)) == (0, [])
    ensures Coupled(AfterRead(w, fd, Chunk(1)).conns[w.table[fd]], r)
  {
    SelectTheorems.CloseIsShut(w, fd, Got(r));
  }

  lemma WriteKeeps(w: World, fd: nat, r: Relay.State)
    requires w.Valid() && fd in w.table && Coupled(w.conns[w.table[fd]], r) && CanServe(r.link, Put)
    ensures Coupled(AfterWrite(w, fd, r.link.held).conns[w.table[fd]], Relay.Step(r, Relay.Server(Put)))
    ensures Relay.Step(r, Relay.Server(Put)).link.held == []
  {
    hide Relay.Inv;
    Relay.StepKeeps(r, Relay.Server(Put));
    SelectTheorems.WriteIsPut(w, fd, Sent(r), r.link.fin, Got(r), r.link.held);
  }

  lemma CloseKeeps(w: World, fd: nat, r: Relay.State)
    requires w.Valid() && fd in w.table && Coupled(w.conns[w.table[fd]], r) && CanServe(r.link, Shut)
    ensures Coupled(AfterClose(w, fd).conns[w.table[fd]], Relay.Step(r, Relay.Server(Shut)))
    ensures Relay.Step(r, Relay.Server(Shut)).link.held == []
  {
    Relay.StepKeeps(r, Relay.Server(Shut));
    SelectTheorems.CloseIsShut(w, fd, Got(r));
  }

  /* ----- all connections ----- */

  lemma StartOk(listenfd: nat, inputs: seq<seq<byte>>)
    ensures Inv(Start(listenfd, inputs))
  {
  }

  lemma OfClientKeeps(s: State, i: nat, b: Relay.Action)
    requires Inv(s) && Enabled(s, OfClient(i, b))
    ensures Inv(Step(s, OfClient(i, b)))
  {
    hide World.Valid, Coupled, Relay.Enabled, Relay.Step;
    ClientKeeps(ConnOf(s.w, i), s.clients[i], b);
    var t := Step(s, OfClient(i, b));
    assert t.Todo() == s.Todo();
    forall fd | s.pc != AtSelect && fd in s.Todo() ensures t.Behind(fd) && Arrived(t.Client(fd).link) {
      assert s.Behind(fd) && Arrived(s.Client(fd).link);
    }
  }

  lemma SelectKeeps(s: State, ready: set<nat>)
    requires Inv(s) && Enabled(s, Select(ready))
    ensures Inv(Step(s, Select(ready)))
  {
    hide World.Valid, Coupled;
  }

  lemma AcceptShows(w: World)
    requires w.Valid() && w.backlog != []
    ensures var w' := Accepted(w);
            && |w'.conns| == |w.conns| + 1 && |w'.backlog| == |w.backlog| - 1 && |w'.table| == |w.table| + 1
            && w'.peak == Max(w.peak, |w.table| + 1)
            && (forall i | 0 <= i < |w.conns| + |w.backlog| :: ConnOf(w', i) == ConnOf(w, i).(fd := ConnOf(w', i).fd))
            && (forall fd | fd in w.table :: fd in w'.table && w'.table[fd] == w.table[fd])
  {
    hide World.Valid, NextFd;
    assert w.table.Keys !! {NextFd(w)};
  }

  // Which descriptor a connection has is nothing to its client.
  lemma Renumbered(c: Conn, c': Conn, r: Relay.State)
    requires Coupled(c, r) && c' == c.(fd := c'.fd)
    ensures Coupled(c', r)
  {
    hide Relay.Inv;
  }

  lemma AcceptKeeps(s: State)
    requires Inv(s) && Enabled(s, AcceptNext)
    ensures Inv(Step(s, AcceptNext))
  {
    hide World.Valid, Relay.Inv, NextFd, Coupled;
    var w' := Accepted(s.w);
    AcceptShows(s.w);
    forall i | 0 <= i < |s.clients| ensures Coupled(ConnOf(w', i), s.clients[i]) {
      Renumbered(ConnOf(s.w, i), ConnOf(w', i), s.clients[i]);
    }
    assert forall fd | fd in s.Todo() :: fd in w'.table && w'.table[fd] == s.w.table[fd];
  }

  // Two descriptors are two connections.
  lemma Apart(w: World, fd: nat, x: nat)
    requires w.Valid() && fd in w.table && x in w.table && fd != x
    ensures w.table[fd] != w.table[x] && w.table[fd] < |w.conns| && w.table[x] < |w.conns|
  {
  }

  lemma InTable(w: World, fd: nat)
    requires w.Valid() && fd in w.table
    ensures w.table[fd] < |w.conns| && w.listenfd != fd
  {
  }

  lemma CoupledBehind(s: State, fd: nat)
    requires Inv(s) && s.Behind(fd)
    ensures s.w.table[fd] < |s.w.conns| && Coupled(s.w.conns[s.w.table[fd]], s.Client(fd))
  {
    hide Coupled;
    assert Coupled(ConnOf(s.w, s.w.table[fd]), s.Client(fd));
  }

  // A call on descriptor fd leaves all other connections as they are.
  ghost predicate OnlyOne(w: World, w': World, fd: nat)
    requires w.Valid() && fd in w.table
  {
    && w'.Valid() && |w'.conns| == |w.conns| && w'.backlog == w.backlog && w'.listenfd == w.listenfd
    && w'.peak == w.peak && |w'.table| <= |w.table|
    && (forall i | 0 <= i < |w.conns| && i != w.table[fd] :: w'.conns[i] == w.conns[i])
    && (forall x | x in w.table && x != fd :: x in w'.table)
    && (forall x | x in w'.table :: x in w.table && w'.table[x] == w.table[x])
  }

  lemma CallsOnlyOne(w: World, fd: nat, r: Reading, data: seq<byte>)
    requires w.Valid() && fd in w.table
    ensures OnlyOne(w, AfterRead(w, fd, r), fd) && OnlyOne(w, AfterWrite(w, fd, data), fd)
    ensures OnlyOne(w, AfterClose(w, fd), fd)
  {
    var t := w.table - {fd};
    assert t.Keys == w.table.Keys - {fd};
    WithoutMember(w.table.Keys, fd);
    assert |t| == |t.Keys| && |w.table| == |w.table.Keys|;
  }

  // The server has made a call on fd, and the client behind it is coupled with what that left.
  lemma OneCallKeeps(s: State, t: State, fd: nat)
    requires Inv(s) && s.Behind(fd) && OnlyOne(s.w, t.w, fd) && s.pc != AtSelect
    requires s.pc.AtWrite? ==> s.pc.fd == fd
    requires var c := s.w.table[fd];
             && |t.clients| == |s.clients| && t.clients == s.clients[c := t.clients[c]]
             && c < |s.w.conns| && Coupled(t.w.conns[c], t.clients[c])
             && (t.clients[c].link.held == [] || (t.pc.AtWrite? && t.pc.fd == fd && fd in t.w.table))
    requires t.Todo() <= s.Todo() - {fd}
    ensures Sized(t)
    ensures forall i | 0 <= i < |t.clients| ::
              Coupled(ConnOf(t.w, i), t.clients[i]) && (t.clients[i].link.held == [] || Holding(t, i))
    ensures forall x | x in t.Todo() :: x in s.Todo() && t.Behind(x) && Arrived(t.Client(x).link)
  {
    hide World.Valid, Coupled;
    forall x | x in s.Todo() && x != fd ensures s.w.table[x] != s.w.table[fd] {
      Apart(s.w, fd, x);
    }
  }

  lemma ReadKeepsAll(s: State, fd: nat, n: nat)
    requires Inv(s) && Enabled(s, ReadNext(fd, n))
    ensures Inv(Step(s, ReadNext(fd, n)))
  {
    hide Coupled, OnlyOne, World.Valid, AfterRead, Answer;
    var t := Step(s, ReadNext(fd, n));
    CallsOnlyOne(s.w, fd, Chunk(Max(n, 1)), []);
    InTable(s.w, fd);
    if n > 0 {
      ReadKeeps(s.w, fd, s.Client(fd), n);
    } else {
      EndKeeps(s.w, fd, s.Client(fd));
    }
    OneCallKeeps(s, t, fd);
  }

  lemma WriteKeepsAll(s: State)
    requires Inv(s) && Enabled(s, WriteBack)
    ensures Inv(Step(s, WriteBack))
  {
    hide Coupled, OnlyOne, World.Valid, AfterWrite, Relay.Step, State.Served, ConnOf;
    CoupledBehind(s, s.pc.fd);
    var fd, t := s.pc.fd, Step(s, WriteBack);
    CallsOnlyOne(s.w, fd, Chunk(1), s.pc.data);
    WriteKeeps(s.w, fd, s.Client(fd));
    OneCallKeeps(s, t, fd);
  }

  lemma CloseKeepsAll(s: State)
    requires Inv(s) && Enabled(s, CloseEnded)
    ensures Inv(Step(s, CloseEnded))
  {
    hide Coupled, OnlyOne, World.Valid, AfterClose, Relay.Step, State.Served, ConnOf;
    CoupledBehind(s, s.pc.fd);
    var fd, t := s.pc.fd, Step(s, CloseEnded);
    CallsOnlyOne(s.w, fd, Chunk(1), []);
    CloseKeeps(s.w, fd, s.Client(fd));
    OneCallKeeps(s, t, fd);
  }

  lemma StepKeeps(s: State, a: Action)
    requires Inv(s) && Enabled(s, a)
    ensures Inv(Step(s, a)) && Inputs(Step(s, a).clients) == Inputs(s.clients) && Step(s, a).w.listenfd == s.w.listenfd
  {
    hide Inv;
    match a
    case OfClient(i, b) => OfClientKeeps(s, i, b);
    case Select(ready) => SelectKeeps(s, ready);
    case AcceptNext => AcceptKeeps(s);
    case ReadNext(fd, n) => ReadKeepsAll(s, fd, n);
    case WriteBack => WriteKeepsAll(s);
    case CloseEnded => CloseKeepsAll(s);
  }

  lemma RunKeeps(s: State, run: seq<Action>)
    requires Inv(s) && IsRun(Enabled, Step, s, run)
    ensures var t := End(Enabled, Step, s, run);
            Inv(t) && Inputs(t.clients) == Inputs(s.clients) && t.w.listenfd == s.w.listenfd
  {
    var same := (t: State) => Inv(t) && Inputs(t.clients) == Inputs(s.clients) && t.w.listenfd == s.w.listenfd;
    forall t, a | same(t) && Enabled(t, a) ensures same(Step(t, a)) {
      StepKeeps(t, a);
    }
    Always(Enabled, Step, same, s, run);
  }

  /* ----- progress ----- */

  // The work of all clients, the connections to be accepted, and where the server is in its loop.
  ghost function Work(s: State): nat {
    3 * (WorkOf(s.clients) + |s.w.backlog|)
    + (match s.pc case AtSelect => 2 case AtAccept => 1 case AtRead => 1 case AtWrite(_, _) => 0 case AtClose(_) => 0)
  }

  lemma OneWorks(s: State, i: nat, b: Relay.Action)
    requires Inv(s) && i < |s.clients| && Relay.Enabled(s.clients[i], b)
    ensures WorkOf(s.clients[i := Relay.Step(s.clients[i], b)]) < WorkOf(s.clients)
  {
    hide Relay.Work, Relay.Inv, World.Valid, SelectTheorems.LinkAt, Relay.Enabled, Relay.Step;
    assert Coupled(ConnOf(s.w, i), s.clients[i]);
    Relay.StepWorks(s.clients[i], b);
    WorkFalls(s.clients, s.clients[i := Relay.Step(s.clients[i], b)], i);
  }

  lemma StepWorks(s: State, a: Action)
    requires Inv(s) && Enabled(s, a)
    ensures Work(Step(s, a)) < Work(s)
  {
    hide Inv, World.Valid, WorkOf, Relay.Step, CanServe, Accepted, AfterRead, AfterWrite, AfterClose;
    match a
    case OfClient(i, b) => OneWorks(s, i, b);
    case Select(_) =>
    case AcceptNext => Backlog(s.w);
    case ReadNext(fd, n) => if n > 0 { OneWorks(s, s.w.table[fd], Relay.Server(Take(n))); }
    case WriteBack => OneWorks(s, s.w.table[s.pc.fd], Relay.Server(Put));
    case CloseEnded => OneWorks(s, s.w.table[s.pc.fd], Relay.Server(Shut));
  }

  lemma Backlog(w: World)
    requires w.Valid() && w.backlog != []
    ensures |Accepted(w).backlog| == |w.backlog| - 1
  {
  }

  lemma RunWorks(s: State, run: seq<Action>)
    requires Inv(s) && IsRun(Enabled, Step, s, run)
    ensures Work(End(Enabled, Step, s, run)) + |run| <= Work(s)
  {
    forall t, a | Inv(t) && Enabled(t, a) ensures Inv(Step(t, a)) && Work(Step(t, a)) < Work(t) {
      StepKeeps(t, a);
      StepWorks(t, a);
    }
    Bounded(Enabled, Step, Inv, Work, s, run);
  }

  lemma LinkOpen(s: State, fd: nat)
    requires Inv(s) && s.Behind(fd)
    ensures !s.Client(fd).link.closed && s.w.table[fd] < |s.w.conns|
  {
    CoupledBehind(s, fd);
  }

  // In the middle of a round the server never has to wait.
  lemma ServerMoves(s: State) returns (a: Action)
    requires Inv(s) && s.pc != AtSelect
    ensures Enabled(s, a)
  {
    hide World.Valid, Coupled;
    match s.pc
    case AtAccept => a := AcceptNext;
    case AtRead =>
      var fd := FindLeast(s.Todo());
      LinkOpen(s, fd);
      a := ReadNext(fd, if s.Client(fd).link.up != [] then 1 else 0);
    case AtWrite(fd, _) =>
      LinkOpen(s, fd);
      a := WriteBack;
    case AtClose(fd) =>
      LinkOpen(s, fd);
      a := CloseEnded;
  }

  // And then select returns in the server: the client's descriptor or the listening one is ready.
  lemma SelectReturns(s: State, i: nat) returns (a: Action)
    requires Inv(s) && s.pc == AtSelect && i < |s.clients| && Arrived(s.clients[i].link) && !s.clients[i].link.closed
    ensures Enabled(s, a)
  {
    hide Relay.Inv;
    assert Coupled(ConnOf(s.w, i), s.clients[i]);
    a := Select({if i < |s.w.conns| then s.w.conns[i].fd else s.w.listenfd});
  }

  // No deadlock: nothing can move only when every client has returned.
  lemma StuckMeansReturned(s: State)
    requires Inv(s) && forall a :: !Enabled(s, a)
    ensures s.pc == AtSelect && forall i | 0 <= i < |s.clients| :: s.clients[i].pc == Relay.Returned
  {
    hide Inv, Enabled;
    if s.pc != AtSelect {
      var a := ServerMoves(s);
    } else if i :| 0 <= i < |s.clients| && s.clients[i].pc != Relay.Returned {
      ClientOk(s, i);
      var b := SomeMove(s.clients[i]);
      if b.Server? {
        var a := SelectReturns(s, i);
      } else {
        OfClientEnabled(s, i, b);
      }
    }
  }

  lemma ClientOk(s: State, i: nat)
    requires Inv(s) && i < |s.clients|
    ensures Relay.Inv(s.clients[i]) && s.clients[i].halfClose && s.w.Valid()
    ensures s.pc == AtSelect ==> s.clients[i].link.held == []
  {
    hide Relay.Inv, World.Valid;
    assert Coupled(ConnOf(s.w, i), s.clients[i]);
  }

  lemma OfClientEnabled(s: State, i: nat, b: Relay.Action)
    requires s.w.Valid() && i < |s.clients| && !b.Server? && Relay.Enabled(s.clients[i], b)
    ensures Enabled(s, OfClient(i, b))
  {
  }

  // What the connection of a returned client has come to.
  lemma ReturnedConn(s: State, i: nat)
    requires Inv(s) && i < |s.clients| && s.clients[i].pc == Relay.Returned
    ensures i < |s.w.conns|
    ensures var c, input := s.w.conns[i], s.clients[i].input;
            !c.open && c.input == c.echoed == input && c.taken == |input|
  {
    ReturnedMeansClosed(s, i);
    Relay.AtTheEnd(s.clients[i]);
    assert Coupled(ConnOf(s.w, i), s.clients[i]);
    assert |s.clients[i].output| == |s.clients[i].input|;
  }

  // By then the server has accepted and closed every connection.
  lemma ReturnedMeansClosed(s: State, i: nat)
    requires Inv(s) && i < |s.clients| && s.clients[i].pc == Relay.Returned
    ensures i < |s.w.conns| && !s.w.conns[i].open
  {
    assert Coupled(ConnOf(s.w, i), s.clients[i]);
  }

  lemma ServerDrained(s: State)
    requires Inv(s) && forall i | 0 <= i < |s.clients| :: s.clients[i].pc == Relay.Returned
    ensures s.w.backlog == [] && s.w.table == map[]
  {
    if s.w.backlog != [] {
      ReturnedMeansClosed(s, |s.clients| - 1);
      assert false;
    }
    forall i | 0 <= i < |s.w.conns| ensures !s.w.conns[i].open {
      ReturnedMeansClosed(s, i);
    }
    assert s.w.table.Keys == {};
  }

  // Total correctness of the whole system: however clients and server are scheduled and however
  // their data is cut, no client ever finds the server terminated prematurely, every
  // output is a prefix of its own stdin, every run is bounded, and a run that cannot be
  // extended has brought every client to its normal return with its own stdin as output.
  lemma TotalCorrectness(listenfd: nat, inputs: seq<seq<byte>>, run: seq<Action>)
    requires IsRun(Enabled, Step, Start(listenfd, inputs), run)
    ensures |run| <= 36 * Total(inputs) + 42 * |inputs| + 2
    ensures var t := End(Enabled, Step, Start(listenfd, inputs), run);
            && |t.clients| == |inputs|
            && (forall i | 0 <= i < |inputs| ::
                  t.clients[i].pc != Relay.Died && t.clients[i].output <= inputs[i])
            && ((forall a :: !Enabled(t, a)) ==>
                  && (forall i | 0 <= i < |inputs| ::
                        t.clients[i].pc == Relay.Returned && t.clients[i].output == inputs[i])
                  && t.pc == AtSelect && t.w.table == map[] && t.w.backlog == [])
  {
    hide IsRun, End, Inv, Enabled, Step, WorkOf, Relay.Inv, Relay.Start;
    var s := Start(listenfd, inputs);
    StartOk(listenfd, inputs);
    StartWorks(inputs);
    RunKeeps(s, run);
    RunWorks(s, run);
    var t := End(Enabled, Step, s, run);
    assert |t.clients| == |Inputs(t.clients)| == |Inputs(s.clients)| == |inputs|;
    forall i | 0 <= i < |inputs|
      ensures t.clients[i].pc != Relay.Died && t.clients[i].output <= inputs[i]
      ensures t.clients[i].pc == Relay.Returned ==> t.clients[i].output == inputs[i]
    {
      ClientOk(t, i);
      Relay.AtTheEnd(t.clients[i]);
      Relay.StartOk(true, inputs[i]);
      assert t.clients[i].input == Inputs(t.clients)[i] == Inputs(s.clients)[i] == inputs[i];
    }
    if forall a :: !Enabled(t, a) {
      StuckMeansReturned(t);
      ServerDrained(t);
    }
  }
}
