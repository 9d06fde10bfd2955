/**
 The non-blocking client (16/str_cli.c, as it is evidently meant; README.md lists the repairs),
 composed with one connection to the echo server.  Every system call of the client and of
 the server is a step.  Reads and writes may be short or answer EWOULDBLOCK.
 */
module NonBlocking {
  import opened Bytes
  import opened EchoLink
  import opened Runs

  datatype Pc =
    | AtSelect | AtReadStdin | AtShutEarly | AtReadSock | AtWriteOut | AtWriteSock | AtShutLate
    | Returned | Died

  // What a non-blocking call answers.
  datatype Result = Done(n: nat) | WouldBlock

  // One of the arrays `to` and `from`: the offset of its out-pointer, and the bytes between
  // the out-pointer and the in-pointer.
  datatype Buffer = Buffer(o: nat, held: seq<byte>) {
    // The offset of the in-pointer.
    function I(): nat { o + |held| }

    function Put(data: seq<byte>): Buffer { Buffer(o, held + data) }

    // Drop what has been written out; equal pointers go back to the start of the array.
    function Drop(n: nat): Buffer
      requires n <= |held|
    {
      Buffer(if n == |held| then 0 else o + n, held[n..])
    }

    ghost predicate Fits(cap: nat) {
      I() <= cap && (held == [] ==> o == 0)
    }
  }

  // The data a run moves; `sent` and `got` record all bytes written to and read from the socket.
  datatype Data = Data(
    unread: seq<byte>, eof: bool, to: Buffer, from: Buffer,
    link: Link, output: seq<byte>, sent: seq<byte>, got: seq<byte>)

  // rset and wset, as select and the reads leave them.
  datatype Sets = Sets(rStdin: bool, rSock: bool, wOut: bool, wSock: bool)

  datatype State = State(
    cap: nat,          // MAXLINE, the size of both arrays
    patience: nat,     // how often the kernel will still answer EWOULDBLOCK
    input: seq<byte>,
    d: Data, sets: Sets, pc: Pc)

  function Start(cap: nat, patience: nat, input: seq<byte>): State {
    State(cap, patience, input,
          Data(input, false, Buffer(0, []), Buffer(0, []), FRESH, [], [], []),
          Sets(false, false, false, false), AtSelect)
  }

  datatype Action =
    | Select(sets: Sets)
    | ReadStdin(r: Result) | ReadSock(r: Result) | WriteOut(r: Result) | WriteSock(r: Result)
    | Shutdown
    | Server(a: ServerStep)
  {
    predicate Blocks() {
      (ReadStdin? || ReadSock? || WriteOut? || WriteSock?) && r.WouldBlock?
    }
  }

  // Lines 59-66: what the next select is to watch.
  function Interest(cap: nat, d: Data): Sets {
    Sets(!d.eof && d.to.I() < cap, d.from.I() < cap, d.from.held != [], d.to.held != [])
  }

  // select reports watched descriptors; the socket only when a read would not block.
  predicate MayReport(cap: nat, d: Data, t: Sets) {
    var w := Interest(cap, d);
    && (t.rStdin || t.rSock || t.wOut || t.wSock)
    && (t.rStdin ==> w.rStdin) && (t.rSock ==> w.rSock && d.link.Readable())
    && (t.wOut ==> w.wOut) && (t.wSock ==> w.wSock)
  }

  // read with room for `room` bytes: 0 at the end of the data, or when there is no room.
  predicate CanRead(data: seq<byte>, atEnd: bool, room: int, n: nat) {
    n <= |data| && n <= Max(room, 0) && (n == 0 ==> (data == [] && atEnd) || room <= 0)
  }

  predicate CanWrite(data: seq<byte>, n: nat) {
    1 <= n <= |data|
  }

  predicate Possible(cap: nat, d: Data, a: Action) {
    match a
    case Select(t) => MayReport(cap, d, t)
    case ReadStdin(r) => r.Done? ==> CanRead(d.unread, true, cap - d.to.I(), r.n)
    case ReadSock(r) => r.Done? ==> CanRead(d.link.down, d.link.closed, cap - d.from.I(), r.n)
    case WriteOut(r) => r.Done? ==> CanWrite(d.from.held, r.n)
    case WriteSock(r) => r.Done? ==> CanWrite(d.to.held, r.n)
    case Shutdown => true
    case Server(b) => CanServe(d.link, b)
  }

  function Moved(cap: nat, d: Data, a: Action): Data
    requires Possible(cap, d, a)
  {
    match a
    case Select(_) => d
    case ReadStdin(r) =>
      if r.WouldBlock? then d
      else if r.n == 0 then d.(eof := true)
      else d.(unread := d.unread[r.n..], to := d.to.Put(d.unread[..r.n]))
    case ReadSock(r) =>
      if r.WouldBlock? then d
      else d.(link := d.link.(down := d.link.down[r.n..]), from := d.from.Put(d.link.down[..r.n]),
              got := d.got + d.link.down[..r.n])
    case WriteOut(r) =>
      if r.WouldBlock? then d
      else d.(output := d.output + d.from.held[..r.n], from := d.from.Drop(r.n))
    case WriteSock(r) =>
      if r.WouldBlock? then d
      else d.(link := d.link.(up := d.link.up + d.to.held[..r.n]), sent := d.sent + d.to.held[..r.n],
              to := d.to.Drop(r.n))
    case Shutdown => d.(link := d.link.(fin := true))
    case Server(b) => d.(link := Served(d.link, b))
  }

  // A successful read adds the descriptor it feeds to wset.
  function SetsAfter(t: Sets, a: Action): Sets {
    match a
    case Select(u) => u
    case ReadStdin(r) => if r.Done? && r.n > 0 then t.(wSock := true) else t
    case ReadSock(r) => if r.Done? && r.n > 0 then t.(wOut := true) else t
    case _ => t
  }

  // The loop body falls through its four blocks in order.
  function FromSend(d: Data, t: Sets): Pc {
    if t.wSock && d.to.held != [] then AtWriteSock else AtSelect
  }

  function FromOut(d: Data, t: Sets): Pc {
    if t.wOut && d.from.held != [] then AtWriteOut else FromSend(d, t)
  }

  function FromSock(d: Data, t: Sets): Pc {
    if t.rSock then AtReadSock else FromOut(d, t)
  }

  // Where the client is after action a, given the data and the sets it left.
  function Next(pc: Pc, d: Data, t: Sets, a: Action): Pc {
    match a
    case Select(_) => if t.rStdin then AtReadStdin else FromSock(d, t)
    case ReadStdin(r) => if r == Done(0) && d.to.held == [] then AtShutEarly else FromSock(d, t)
    case ReadSock(r) => if r == Done(0) then (if d.eof then Returned else Died) else FromOut(d, t)
    case WriteOut(r) => if r.WouldBlock? then AtSelect else FromSend(d, t)
    case WriteSock(r) => if r.Done? && d.to.held == [] && d.eof then AtShutLate else AtSelect
    case Shutdown => if pc == AtShutEarly then FromSock(d, t) else AtSelect
    case Server(_) => pc
  }

  predicate AtIts(pc: Pc, a: Action) {
    match a
    case Select(_) => pc == AtSelect
    case ReadStdin(_) => pc == AtReadStdin
    case ReadSock(_) => pc == AtReadSock
    case WriteOut(_) => pc == AtWriteOut
    case WriteSock(_) => pc == AtWriteSock
    case Shutdown => pc == AtShutEarly || pc == AtShutLate
    case Server(_) => true
  }

  predicate Enabled(s: State, a: Action) {
    AtIts(s.pc, a) && Possible(s.cap, s.d, a) && (a.Blocks() ==> s.patience > 0)
  }

  function Step(s: State, a: Action): State
    requires Enabled(s, a)
  {
    var d := Moved(s.cap, s.d, a);
    var t := SetsAfter(s.sets, a);
    State(s.cap, if a.Blocks() then s.patience - 1 else s.patience, s.input, d, t, Next(s.pc, d, t, a))
  }

  /* ----- what every step keeps ----- */

  // The two buffers refine plain queues: what was read is what was passed on followed by what
  // lies between the pointers.
  ghost predicate Queues(input: seq<byte>, d: Data) {
    && d.sent + d.to.held + d.unread == input
    && d.output + d.from.held == d.got
  }

  ghost predicate Echoed(d: Data) {
    d.got + d.link.InFlight() == d.sent
  }

  ghost predicate Control(s: State) {
    var d := s.d;
    && s.cap > 0 && d.to.Fits(s.cap) && d.from.Fits(s.cap)
    && d.link.Valid()
    && (d.eof ==> d.unread == [])
    && (s.pc == AtShutEarly || s.pc == AtShutLate ==> d.eof && d.to.held == [] && !d.link.fin)
    && (s.pc != AtShutEarly && s.pc != AtShutLate ==> (d.link.fin <==> d.eof && d.to.held == []))
    && (s.pc == AtReadStdin ==> !d.eof && d.to.I() < s.cap)
    && (s.pc == AtReadSock || (s.sets.rSock && (s.pc == AtReadStdin || s.pc == AtShutEarly)) ==>
          d.from.I() < s.cap && d.link.Readable())
    && (s.pc == AtWriteOut ==> d.from.held != [])
    && (s.pc == AtWriteSock ==> d.to.held != [])
    && (s.pc == Returned ==> d.eof && d.link.closed && d.link.down == [] && d.from.I() < s.cap)
    && s.pc != Died
  }

  ghost predicate Inv(s: State) {
    Queues(s.input, s.d) && Echoed(s.d) && Control(s)
  }

  lemma MovedKeepsQueues(cap: nat, input: seq<byte>, d: Data, a: Action)
    requires Queues(input, d) && Possible(cap, d, a)
    ensures Queues(input, Moved(cap, d, a))
  {
    match a
    case ReadStdin(r) => if r.Done? { Cut(d.unread, r.n); }
    case ReadSock(r) => if r.Done? { Cut(d.link.down, r.n); }
    case WriteOut(r) => if r.Done? { Cut(d.from.held, r.n); }
    case WriteSock(r) => if r.Done? { Cut(d.to.held, r.n); }
    case _ =>
  }

  lemma MovedKeepsEcho(cap: nat, d: Data, a: Action)
    requires d.link.Valid() && Echoed(d) && Possible(cap, d, a)
    ensures Echoed(Moved(cap, d, a))
  {
    match a
    case ReadSock(r) =>
      if r.Done? {
        Received(d.link, r.n);
      }
    case WriteSock(r) =>
      if r.Done? {
        Sent(d.link, d.to.held[..r.n]);
      }
    case Server(b) => ServedKeeps(d.link, b);
    case _ =>
  }

  lemma StepKeepsControl(s: State, a: Action)
    requires Control(s) && Enabled(s, a)
    ensures Control(Step(s, a))
  {
    if a.Server? {
      ServedKeeps(s.d.link, a.a);
    }
  }

  lemma StepKeeps(s: State, a: Action)
    requires Inv(s) && Enabled(s, a)
    ensures Inv(Step(s, a)) && Step(s, a).input == s.input && Step(s, a).cap == s.cap
  {
    MovedKeepsQueues(s.cap, s.input, s.d, a);
    MovedKeepsEcho(s.cap, s.d, a);
    StepKeepsControl(s, a);
    hide Queues, Echoed, Control, Moved, Possible;
  }

  lemma RunKeeps(s: State, run: seq<Action>)
    requires Inv(s) && IsRun(Enabled, Step, s, run)
    ensures var t := End(Enabled, Step, s, run); Inv(t) && t.input == s.input && t.cap == s.cap
  {
    var same := (t: State) => Inv(t) && t.input == s.input && t.cap == s.cap;
    forall t, a | same(t) && Enabled(t, a) ensures same(Step(t, a)) {
      StepKeeps(t, a);
    }
    Always(Enabled, Step, same, s, run);
  }

  // For every pattern of short and refused calls: the buffers are queues, the client never
  // dies, and when it returns, what it has printed followed by what it leaves unprinted in
  // `from` is stdin.  ReturnOutputs below says how much that can be.
  lemma BufferRefinement(cap: nat, patience: nat, input: seq<byte>, run: seq<Action>)
    requires cap > 0 && IsRun(Enabled, Step, Start(cap, patience, input), run)
    ensures var t := End(Enabled, Step, Start(cap, patience, input), run);
            && t.d.sent + t.d.to.held + t.d.unread == input
            && t.d.output + t.d.from.held == t.d.got
            && t.d.output <= input && t.pc != Died
            && (t.pc == Returned ==> t.d.output + t.d.from.held == input && |t.d.from.held| < cap)
            && (t.pc == Returned ==> (t.d.output == input <==> t.d.from.held == []))
  {
    StartOk(cap, patience, input);
    hide IsRun, End, Start, Inv;
    RunKeeps(Start(cap, patience, input), run);
    Kept(End(Enabled, Step, Start(cap, patience, input), run));
  }

  lemma Kept(s: State)
    requires Inv(s)
    ensures s.d.sent + s.d.to.held + s.d.unread == s.input && s.d.output + s.d.from.held == s.d.got
    ensures s.d.output <= s.input && s.pc != Died
    ensures s.pc == Returned ==> s.d.output + s.d.from.held == s.input && |s.d.from.held| < s.cap
  {
  }

  /* ----- interest, room, and the FIN ----- */

  // At each select at least one descriptor is watched, because equal pointers are back at the
  // start of their buffer.
  lemma SomethingWatched(s: State)
    requires Inv(s) && s.pc == AtSelect
    ensures var w := Interest(s.cap, s.d); w.rSock || w.wOut
  {
  }

  // Every read has room, so a result of 0 means the end of the data; otherwise any number of bytes
  // may be returned that are there and fit.
  lemma ZeroMeansEnd(s: State)
    requires Inv(s)
    ensures s.pc == AtReadStdin ==> forall n: nat ::
              Enabled(s, ReadStdin(Done(n)))
              <==> if s.d.unread == [] then n == 0 else 1 <= n <= |s.d.unread| && n <= s.cap - s.d.to.I()
    ensures s.pc == AtReadSock ==> forall n: nat ::
              Enabled(s, ReadSock(Done(n)))
              <==> if s.d.link.down == [] then n == 0 && s.d.link.closed
                   else 1 <= n <= |s.d.link.down| && n <= s.cap - s.d.from.I()
    ensures s.pc == AtReadStdin ==> s.cap - s.d.to.I() > 0
    ensures s.pc == AtReadSock ==> s.cap - s.d.from.I() > 0
    ensures Enabled(s, ReadStdin(Done(0))) ==> s.d.unread == []
    ensures Enabled(s, ReadSock(Done(0))) ==> s.d.link.closed && s.d.link.down == [] && s.d.eof
  {
  }

  // A read that reports the end of the connection too early would not go unnoticed.
  lemma EndOfConnection(s: State)
    requires Enabled(s, ReadSock(Done(0)))
    ensures Step(s, ReadSock(Done(0))).pc == Died <==> !s.d.eof
  {
  }

  predicate IsShutdown(a: Action) {
    a.Shutdown?
  }

  // The FIN is sent at most once, and each shutdown finds stdin at its end with everything sent.
  lemma {:induction false} FinOnce(s: State, run: seq<Action>)
    requires Inv(s) && IsRun(Enabled, Step, s, run)
    ensures CountOf(IsShutdown, run) == (if End(Enabled, Step, s, run).d.link.fin && !s.d.link.fin then 1 else 0)
    decreases |run|
  {
    if run != [] {
      var a := run[0];
      var t := Step(s, a);
      StepKeeps(s, a);
      if a.Shutdown? {
        assert t.d.link.fin && !s.d.link.fin;
      } else {
        assert t.d.link.fin == s.d.link.fin;
      }
      hide Inv, Step, Enabled;
      FinOnce(t, run[1..]);
      if t.d.link.fin {
        FinStays(t, run[1..]);
      }
    }
  }

  lemma FinStays(s: State, run: seq<Action>)
    requires IsRun(Enabled, Step, s, run) && s.d.link.fin
    ensures End(Enabled, Step, s, run).d.link.fin
  {
    Always(Enabled, Step, (t: State) => t.d.link.fin, s, run);
  }

  lemma FinAtTheEnd(s: State)
    requires Inv(s) && Enabled(s, Shutdown)
    ensures s.d.eof && s.d.unread == [] && s.d.to.held == [] && s.d.sent == s.input && !s.d.link.fin
  {
  }

  /* ----- progress ----- */

  ghost function Distance(d: Data): nat {
    6 * |d.unread| + 5 * |d.to.held| + d.link.Weight() + |d.from.held|
    + (if d.eof then 0 else 1) + (if d.link.fin then 0 else 1)
  }

  ghost function Work(s: State): nat {
    2 * (Distance(s.d) + s.patience + (if s.pc == Returned then 0 else 1))
    + (if s.pc == AtSelect then 1 else 0)
  }

  lemma MovedWorks(s: State, a: Action)
    requires Control(s) && Enabled(s, a)
    ensures Distance(Moved(s.cap, s.d, a)) <= Distance(s.d)
    ensures !a.Select? && !a.Blocks() && Step(s, a).pc != Returned
            ==> Distance(Moved(s.cap, s.d, a)) < Distance(s.d)
  {
    if a.Server? {
      ServedKeeps(s.d.link, a.a);
    }
  }

  lemma StepWorks(s: State, a: Action)
    requires Inv(s) && Enabled(s, a)
    ensures Work(Step(s, a)) < Work(s)
  {
    MovedWorks(s, a);
    hide Queues, Echoed, Distance;
  }

  lemma RunWorks(s: State, run: seq<Action>)
    requires Inv(s) && IsRun(Enabled, Step, s, run)
    ensures Work(End(Enabled, Step, s, run)) + |run| <= Work(s)
  {
    forall t, a | Inv(t) && Enabled(t, a) ensures Inv(Step(t, a)) && Work(Step(t, a)) < Work(t) {
      StepKeeps(t, a);
      StepWorks(t, a);
    }
    Bounded(Enabled, Step, Inv, Work, s, run);
  }

  // A call the client can make next, or a step of the server it waits for.
  function Move(s: State): Action {
    match s.pc
    case AtSelect =>
      var w := Interest(s.cap, s.d);
      var t := Sets(w.rStdin, w.rSock && s.d.link.Readable(), w.wOut, w.wSock);
      if t == Sets(false, false, false, false) then Server(NextServerStep(s.d.link, 1)) else Select(t)
    case AtReadStdin => ReadStdin(Done(Min(1, |s.d.unread|)))
    case AtReadSock => ReadSock(Done(Min(1, |s.d.link.down|)))
    case AtWriteOut => WriteOut(Done(1))
    case AtWriteSock => WriteSock(Done(1))
    case _ => Shutdown
  }

  lemma MoveEnabled(s: State)
    requires Inv(s) && s.pc != Returned
    ensures Enabled(s, Move(s))
  {
    hide Queues, Echoed;
  }

  // No deadlock: client and server are both stuck only when the client has returned.
  lemma StuckMeansReturned(s: State)
    requires Inv(s)
    ensures (forall a :: !Enabled(s, a)) <==> s.pc == Returned
  {
    if s.pc == Returned {
      forall a ensures !Enabled(s, a) {
      }
    } else {
      MoveEnabled(s);
    }
  }

  // If the kernel refuses only finitely often, every run is bounded, and a run that cannot be
  // extended has returned with all of stdin printed or waiting in `from`.
  lemma TotalCorrectness(cap: nat, patience: nat, input: seq<byte>, run: seq<Action>)
    requires cap > 0 && IsRun(Enabled, Step, Start(cap, patience, input), run)
    ensures |run| <= 12 * |input| + 2 * patience + 9
    ensures var t := End(Enabled, Step, Start(cap, patience, input), run);
            (forall a :: !Enabled(t, a)) ==> t.pc == Returned && t.d.output + t.d.from.held == input
  {
    StartOk(cap, patience, input);
    hide IsRun, End, Start, Inv, Work, Enabled;
    RunKeeps(Start(cap, patience, input), run);
    RunWorks(Start(cap, patience, input), run);
    StuckMeansReturned(End(Enabled, Step, Start(cap, patience, input), run));
    Kept(End(Enabled, Step, Start(cap, patience, input), run));
  }

  lemma StartOk(cap: nat, patience: nat, input: seq<byte>)
    requires cap > 0
    ensures var s := Start(cap, patience, input);
            Inv(s) && Work(s) == 12 * |input| + 2 * patience + 9 && s.input == input && s.cap == cap
  {
  }

  /* ----- the return does not flush `from` ----- */

  const SEL_STDIN: Action := Select(Sets(true, false, false, false))
  const SEL_SOCK: Action := Select(Sets(false, true, false, false))

  // At select, with nothing in the two buffers.
  ghost predicate Empty(s: State) {
    s.cap > 0 && s.pc == AtSelect && s.d.to == Buffer(0, []) && s.d.from == Buffer(0, [])
  }

  // A run by which stdin is read and sent a byte at a time, while the server does nothing yet.
  lemma {:induction false} SendAll(s0: State, run0: seq<Action>) returns (run: seq<Action>)
    requires IsRun(Enabled, Step, s0, run0)
    requires var s := End(Enabled, Step, s0, run0);
             Empty(s) && !s.d.eof && s.d.link.held == [] && s.d.link.down == []
    ensures IsRun(Enabled, Step, s0, run)
    ensures var s, t := End(Enabled, Step, s0, run0), End(Enabled, Step, s0, run);
            && Empty(t) && t.d.eof && t.d.link.fin && t.d.link.held == [] && t.d.link.down == []
            && t.d.link.closed == s.d.link.closed && t.d.got == s.d.got
            && t.patience == s.patience && t.cap == s.cap
    decreases |End(Enabled, Step, s0, run0).d.unread|
  {
    hide IsRun, End;
    run := Extend(Enabled, Step, s0, run0, SEL_STDIN);
    if End(Enabled, Step, s0, run0).d.unread == [] {
      run := Extend(Enabled, Step, s0, run, ReadStdin(Done(0)));
      run := Extend(Enabled, Step, s0, run, Shutdown);
    } else {
      run := Extend(Enabled, Step, s0, run, ReadStdin(Done(1)));
      run := Extend(Enabled, Step, s0, run, WriteSock(Done(1)));
      run := SendAll(s0, run);
    }
  }

  // The server echoes everything and closes, while the client does nothing.
  lemma {:induction false} EchoAll(s0: State, run0: seq<Action>) returns (run: seq<Action>)
    requires IsRun(Enabled, Step, s0, run0)
    requires var l := End(Enabled, Step, s0, run0).d.link; l.fin && !l.closed && l.held == []
    ensures IsRun(Enabled, Step, s0, run)
    ensures var s, t := End(Enabled, Step, s0, run0), End(Enabled, Step, s0, run);
            t.d.link.closed && t == s.(d := s.d.(link := t.d.link))
    decreases |End(Enabled, Step, s0, run0).d.link.up|
  {
    hide IsRun, End;
    if End(Enabled, Step, s0, run0).d.link.up == [] {
      run := Extend(Enabled, Step, s0, run0, Server(Shut));
    } else {
      run := Extend(Enabled, Step, s0, run0, Server(Take(1)));
      run := Extend(Enabled, Step, s0, run, Server(Put));
      run := EchoAll(s0, run);
    }
  }

  // The client prints all but the last k bytes of what the server has sent, a byte at a time.
  lemma {:induction false} PrintAllBut(s0: State, run0: seq<Action>, k: nat) returns (run: seq<Action>)
    requires IsRun(Enabled, Step, s0, run0)
    requires var s := End(Enabled, Step, s0, run0); Empty(s) && s.d.link.closed && k <= |s.d.link.down|
    ensures IsRun(Enabled, Step, s0, run)
    ensures var s, t := End(Enabled, Step, s0, run0), End(Enabled, Step, s0, run);
            && Empty(t) && t.d.link.closed && |t.d.link.down| == k
            && t.d.eof == s.d.eof && t.patience == s.patience && t.cap == s.cap
    decreases |End(Enabled, Step, s0, run0).d.link.down|
  {
    hide IsRun, End;
    run := run0;
    if k < |End(Enabled, Step, s0, run0).d.link.down| {
      run := Extend(Enabled, Step, s0, run, SEL_SOCK);
      run := Extend(Enabled, Step, s0, run, ReadSock(Done(1)));
      run := Extend(Enabled, Step, s0, run, WriteOut(Done(1)));
      run := PrintAllBut(s0, run, k);
    }
  }

  lemma NothingLeft(s0: State, run0: seq<Action>) returns (run: seq<Action>)
    requires IsRun(Enabled, Step, s0, run0)
    requires var s := End(Enabled, Step, s0, run0); Empty(s) && s.d.eof && s.d.link.closed && s.d.link.down == []
    ensures IsRun(Enabled, Step, s0, run)
    ensures var t := End(Enabled, Step, s0, run); t.pc == Returned && t.d.from.held == []
  {
    hide IsRun, End;
    run := Extend(Enabled, Step, s0, run0, SEL_SOCK);
    run := Extend(Enabled, Step, s0, run, ReadSock(Done(0)));
  }

  // The client reads the last n bytes and makes one attempt to print them, and returns.
  lemma LeaveBehind(s0: State, run0: seq<Action>, n: nat, r: Result) returns (run: seq<Action>)
    requires IsRun(Enabled, Step, s0, run0)
    requires var s := End(Enabled, Step, s0, run0);
             && Empty(s) && s.d.eof && s.d.link.closed && |s.d.link.down| == n && 1 <= n < s.cap
             && r == (if s.patience > 0 then WouldBlock else Done(1)) && (s.patience == 0 ==> n > 1)
    ensures IsRun(Enabled, Step, s0, run)
    ensures var t := End(Enabled, Step, s0, run);
            t.pc == Returned && |t.d.from.held| == if r.Done? then n - 1 else n
  {
    hide IsRun, End;
    run := Extend(Enabled, Step, s0, run0, SEL_SOCK);
    run := Extend(Enabled, Step, s0, run, ReadSock(Done(n)));
    run := Extend(Enabled, Step, s0, run, WriteOut(r));
    run := Extend(Enabled, Step, s0, run, SEL_SOCK);
    run := Extend(Enabled, Step, s0, run, ReadSock(Done(0)));
  }

  // How much of stdin the client can leave unprinted, depending on whether the kernel may refuse.
  predicate CanRemain(cap: nat, patience: nat, input: seq<byte>, left: nat) {
    left == 0 || (if patience > 0 then left < cap && left <= |input| else left + 1 < cap && left < |input|)
  }

  lemma RunThatLeaves(cap: nat, patience: nat, input: seq<byte>, left: nat) returns (run: seq<Action>)
    requires cap > 0 && CanRemain(cap, patience, input, left)
    ensures IsRun(Enabled, Step, Start(cap, patience, input), run)
    ensures var t := End(Enabled, Step, Start(cap, patience, input), run);
            t.pc == Returned && |t.d.from.held| == left
  {
    var s := Start(cap, patience, input);
    StartOk(cap, patience, input);
    hide Inv;
    run := SendAll(s, []);
    run := EchoAll(s, run);
    AllEchoed(s, run);
    var n := if left > 0 && patience == 0 then left + 1 else left;
    run := PrintAllBut(s, run, n);
    hide IsRun, End;
    if n == 0 {
      run := NothingLeft(s, run);
    } else {
      run := LeaveBehind(s, run, n, if patience > 0 then WouldBlock else Done(1));
    }
  }

  lemma AllEchoed(s: State, run: seq<Action>)
    requires Inv(s) && IsRun(Enabled, Step, s, run)
    requires var t := End(Enabled, Step, s, run); t.d.link.closed && t.d.to.held == [] && t.d.got == [] && t.d.eof
    ensures End(Enabled, Step, s, run).d.link.down == s.input
  {
    RunKeeps(s, run);
  }

  // Without a refusal every byte read is followed by a successful write, so bytes stay behind
  // only after a part of their buffer has been written.
  ghost predicate Flushing(s: State) {
    && s.patience == 0 && s.d.from.o <= |s.d.output|
    && (s.pc != AtWriteOut && s.d.from.held != [] ==> s.d.from.o > 0)
  }

  lemma RunFlushes(s: State, run: seq<Action>)
    requires Flushing(s) && IsRun(Enabled, Step, s, run)
    ensures Flushing(End(Enabled, Step, s, run))
  {
    forall t, a | Flushing(t) && Enabled(t, a) ensures Flushing(Step(t, a)) {
    }
    Always(Enabled, Step, Flushing, s, run);
  }

  ghost predicate CanReturnWith(cap: nat, patience: nat, input: seq<byte>, output: seq<byte>) {
    exists run :: IsRun(Enabled, Step, Start(cap, patience, input), run)
                  && End(Enabled, Step, Start(cap, patience, input), run).pc == Returned
                  && End(Enabled, Step, Start(cap, patience, input), run).d.output == output
  }

  lemma RunRemains(cap: nat, patience: nat, input: seq<byte>, run: seq<Action>)
    requires cap > 0 && IsRun(Enabled, Step, Start(cap, patience, input), run)
    requires End(Enabled, Step, Start(cap, patience, input), run).pc == Returned
    ensures var output := End(Enabled, Step, Start(cap, patience, input), run).d.output;
            output <= input && CanRemain(cap, patience, input, |input| - |output|)
  {
    StartOk(cap, patience, input);
    RunKeeps(Start(cap, patience, input), run);
    if patience == 0 {
      RunFlushes(Start(cap, patience, input), run);
    }
  }

  // What the client can have printed when it returns: stdin without so many bytes at its end.
  lemma ReturnOutputs(cap: nat, patience: nat, input: seq<byte>, output: seq<byte>)
    requires cap > 0
    ensures CanReturnWith(cap, patience, input, output)
            <==> output <= input && CanRemain(cap, patience, input, |input| - |output|)
  {
    if output <= input && CanRemain(cap, patience, input, |input| - |output|) {
      var run := RunThatLeaves(cap, patience, input, |input| - |output|);
      BufferRefinement(cap, patience, input, run);
      assert End(Enabled, Step, Start(cap, patience, input), run).d.output == output;
    }
    forall run | IsRun(Enabled, Step, Start(cap, patience, input), run)
                 && End(Enabled, Step, Start(cap, patience, input), run).pc == Returned
      ensures var printed := End(Enabled, Step, Start(cap, patience, input), run).d.output;
              printed <= input && CanRemain(cap, patience, input, |input| - |printed|)
    {
      RunRemains(cap, patience, input, run);
    }
  }

  // So stdin is certain to be printed in full if and only if there is none, or the arrays hold a
  // single byte, or no call is refused and the arrays or stdin are too short for a partial write.
  lemma ReturnLoses(cap: nat, patience: nat, input: seq<byte>)
    requires cap > 0
    ensures (forall output | CanReturnWith(cap, patience, input, output) :: output == input)
            <==> input == [] || cap == 1 || (patience == 0 && (cap == 2 || |input| == 1))
  {
    if input != [] {
      ReturnOutputs(cap, patience, input, input[..|input| - 1]);
    }
    forall output | CanReturnWith(cap, patience, input, output)
      ensures output <= input && CanRemain(cap, patience, input, |input| - |output|)
    {
      ReturnOutputs(cap, patience, input, output);
    }
  }
}
