/**
 The kernel as the two select servers see it: a backlog of connections that have not
 been accepted, the accepted connections, and the table of client descriptors.
 A World is a value; Kernel (below) is the object whose system calls update it.
 */
module Sockets {
  import opened Bytes

  const FD_SETSIZE: nat := 1024

  // One accepted connection.  `input` is everything its client sends before its FIN,
  // `taken` how much of that the server has read, `echoed` what the server has written back.
  datatype Conn = Conn(fd: nat, input: seq<byte>, taken: nat, echoed: seq<byte>, open: bool, failed: bool)
  {
    // What has been written to it is what has been read from it, in order, and it has been
    // closed only at end of input or after a failed read.
    ghost predicate Faithful() {
      && taken <= |input|
      && echoed == input[..taken]
      && (failed ==> !open)
      && (!open && !failed ==> taken == |input|)
    }
  }

  datatype Event =
    | Accept(fd: nat)
    | Read(fd: nat, n: int, data: seq<byte>)
    | Write(fd: nat, data: seq<byte>)
    | Close(fd: nat)

  // How the kernel answers one read: with at most `size` bytes, or with an error.
  datatype Reading = Chunk(size: nat) | Failure

  // What the kernel decides in one round of a server: which descriptors are readable, and
  // how each read is answered.
  datatype Choice = Choice(readable: set<nat>, readings: map<nat, Reading>) {
    // Some ready client is going to answer a read with an error.
    ghost predicate Fails(listenfd: nat) {
      exists fd :: fd in readable && fd != listenfd && fd in readings && readings[fd].Failure?
    }
  }

  ghost predicate NoneFails(choices: seq<Choice>, listenfd: nat) {
    forall c | c in choices :: !c.Fails(listenfd)
  }

  datatype World = World(
    listenfd: nat,
    backlog: seq<seq<byte>>,
    conns: seq<Conn>,
    table: map<nat, nat>,     // client descriptor -> index in conns
    peak: nat,                // largest |table| so far
    trace: seq<Event>)
  {
    // Descriptors and open connections name each other, so no two descriptors share a connection;
    // lowest-free allocation keeps the descriptors within `peak` places of the listening one.
    ghost predicate Valid() {
      && (forall fd | fd in table ::
            && listenfd < fd <= listenfd + peak && table[fd] < |conns|
            && conns[table[fd]].open && conns[table[fd]].fd == fd)
      && (forall c | 0 <= c < |conns| ::
            && conns[c].taken <= |conns[c].input|
            && (conns[c].open ==> conns[c].fd in table && table[conns[c].fd] == c))
    }

    ghost predicate Faithful() {
      forall c | 0 <= c < |conns| :: conns[c].Faithful()
    }
  }

  function InitialWorld(listenfd: nat, backlog: seq<seq<byte>>): World {
    World(listenfd, backlog, [], map[], 0, [])
  }

  // The lowest descriptor at or above fd that is not in use.
  function LowestFree(used: set<nat>, fd: nat): (r: nat)
    ensures fd <= r && r !in used
    ensures forall k | fd <= k < r :: k in used
    decreases used
  {
    if fd in used then LowestFree(used - {fd}, fd + 1) else fd
  }

  /* ----- system calls as functions on worlds ----- */

  function NextFd(w: World): (fd: nat)
    ensures w.listenfd < fd && fd !in w.table
  {
    LowestFree(w.table.Keys, w.listenfd + 1)
  }

  ghost function Interval(lo: int, hi: int): (s: set<int>)
    requires lo <= hi
    ensures |s| == hi - lo
    ensures forall k :: k in s <==> lo <= k < hi
    decreases hi - lo
  {
    if lo == hi then {} else Interval(lo, hi - 1) + {hi - 1}
  }

  lemma Insert<T>(a: set<T>, b: set<T>, x: T)
    ensures (a + b) + {x} == a + (b + {x})
  {
  }

  lemma SubsetSize<T>(a: set<T>, b: set<T>)
    requires a <= b
    ensures |a| <= |b| && (|a| == |b| ==> a == b)
  {
    assert b == a + (b - a);
  }

  // A new descriptor lies within the first peak + 1 places after the listening one, and it
  // takes the last of them only when all the others are taken.
  lemma NextFdBound(w: World)
    requires w.Valid()
    ensures NextFd(w) <= w.listenfd + 1 + w.peak
    ensures NextFd(w) == w.listenfd + 1 + w.peak ==> |w.table| == w.peak
    ensures NextFd(w) <= w.listenfd + w.peak ==> |w.table| < w.peak
  {
    assert w.listenfd + 1 + w.peak !in w.table.Keys;
    var places := Interval(w.listenfd + 1, w.listenfd + 1 + w.peak);
    var used: set<int> := set fd: nat | fd in w.table :: fd as int;
    assert used == w.table.Keys;
    SubsetSize(used, places);
    if NextFd(w) == w.listenfd + 1 + w.peak {
      assert places <= used;
      SubsetSize(places, used);
    } else {
      assert NextFd(w) as int !in used;
    }
  }

  lemma OpenBound(w: World, fd: nat)
    requires w.Valid() && fd in w.table
    ensures w.listenfd < fd <= w.listenfd + w.peak
  {
  }

  function Accepted(w: World): (w': World)
    requires w.Valid() && w.backlog != []
    ensures w'.Valid() && w'.table.Keys == w.table.Keys + {NextFd(w)}
    ensures w'.listenfd == w.listenfd
    ensures w'.peak == Max(w.peak, |w.table| + 1)
  {
    var fd := NextFd(w);
    NextFdBound(w);
    w.(backlog := w.backlog[1..],
       conns := w.conns + [Conn(fd, w.backlog[0], 0, [], true, false)],
       table := w.table[fd := |w.conns|],
       peak := Max(w.peak, |w.table| + 1),
       trace := w.trace + [Accept(fd)])
  }

  // What a read of descriptor fd returns: the count (-1 on error) and the bytes.
  function Answer(w: World, fd: nat, r: Reading): (a: (int, seq<byte>))
    requires w.Valid() && fd in w.table
    ensures a.0 <= BUFSIZE && (a.0 >= 0 ==> |a.1| == a.0) && (a.0 < 0 ==> a.1 == [])
    ensures a.0 < 0 <==> r.Failure?
  {
    var c := w.conns[w.table[fd]];
    match r
    case Failure => (-1, [])
    case Chunk(size) =>
      var n := Min(Min(size, BUFSIZE), |c.input| - c.taken);
      (n, c.input[c.taken..c.taken + n])
  }

  function AfterRead(w: World, fd: nat, r: Reading): (w': World)
    requires w.Valid() && fd in w.table
    ensures w'.Valid() && w'.table == w.table
    ensures w'.listenfd == w.listenfd && w'.backlog == w.backlog && w'.peak == w.peak
  {
    var (n, data) := Answer(w, fd, r);
    var c := w.conns[w.table[fd]];
    var c' := if n < 0 then c.(failed := true) else c.(taken := c.taken + n);
    w.(conns := w.conns[w.table[fd] := c'], trace := w.trace + [Read(fd, n, data)])
  }

  function AfterWrite(w: World, fd: nat, data: seq<byte>): (w': World)
    requires w.Valid() && fd in w.table
    ensures w'.Valid() && w'.table == w.table
    ensures w'.listenfd == w.listenfd && w'.backlog == w.backlog && w'.peak == w.peak
  {
    var c := w.conns[w.table[fd]];
    w.(conns := w.conns[w.table[fd] := c.(echoed := c.echoed + data)], trace := w.trace + [Write(fd, data)])
  }

  function AfterClose(w: World, fd: nat): (w': World)
    requires w.Valid() && fd in w.table
    ensures w'.Valid() && w'.table.Keys == w.table.Keys - {fd}
    ensures w'.listenfd == w.listenfd && w'.backlog == w.backlog && w'.peak == w.peak
  {
    var c := w.conns[w.table[fd]];
    w.(conns := w.conns[w.table[fd] := c.(open := false)],
       table := w.table - {fd},
       trace := w.trace + [Close(fd)])
  }

  /* ----- what one round of either server is meant to do ----- */

  // Serve one readable client: read once, then echo what was read, or close.
  function Serve(w: World, fd: nat, r: Reading): (w': World)
    requires w.Valid() && fd in w.table
    ensures w'.Valid() && w.table.Keys - {fd} <= w'.table.Keys <= w.table.Keys
    ensures w'.listenfd == w.listenfd && w'.backlog == w.backlog && w'.peak == w.peak
  {
    var (n, data) := Answer(w, fd, r);
    if n <= 0
    then AfterClose(AfterRead(w, fd, r), fd)
    else AfterWrite(AfterRead(w, fd, r), fd, data)
  }

  lemma FindLeast(s: set<nat>) returns (m: nat)
    requires s != {}
    ensures m in s && forall x | x in s :: m <= x
  {
    var x :| x in s;
    var rest := s - {x};
    assert s == rest + {x};
    m := x;
    if rest != {} {
      var k := FindLeast(rest);
      m := if k < x then k else x;
    }
  }

  ghost function Least(s: set<nat>): (m: nat)
    requires s != {}
    ensures m in s && forall x | x in s :: m <= x
  {
    assert exists m :: m in s && forall x | x in s :: m <= x by {
      var m := FindLeast(s);
    }
    var m :| m in s && forall x | x in s :: m <= x;
    m
  }

  // Serve every client in s, in ascending order of descriptor.
  ghost function ServeAll(w: World, s: set<nat>, readings: map<nat, Reading>): (w': World)
    requires w.Valid() && s <= w.table.Keys && s <= readings.Keys
    ensures w'.Valid() && w.table.Keys - s <= w'.table.Keys <= w.table.Keys
    ensures w'.listenfd == w.listenfd && w'.backlog == w.backlog && w'.peak == w.peak
    decreases s
  {
    if s == {} then w
    else
      var fd := Least(s);
      ServeAll(Serve(w, fd, readings[fd]), s - {fd}, readings)
  }

  // A choice the kernel can make: select returns, with only watched descriptors; accept
  // succeeds with a descriptor below FD_SETSIZE; a read asks for at least one byte.
  ghost predicate Possible(w: World, choice: Choice) {
    && choice.readable != {}
    && choice.readable <= {w.listenfd} + w.table.Keys
    && choice.readable - {w.listenfd} <= choice.readings.Keys
    && (forall fd | fd in choice.readings && choice.readings[fd].Chunk? :: choice.readings[fd].size >= 1)
    && (w.listenfd in choice.readable ==> w.backlog != [] && NextFd(w) < FD_SETSIZE)
  }

  // A round begins by accepting a connection, if one is waiting.
  function Admitted(w: World, choice: Choice): (w': World)
    requires w.Valid() && (w.listenfd in choice.readable ==> w.backlog != [])
    ensures w'.Valid() && w'.listenfd == w.listenfd && w.table.Keys <= w'.table.Keys
  {
    if w.listenfd in choice.readable then Accepted(w) else w
  }

  ghost function Round(w: World, choice: Choice): (w': World)
    requires w.Valid() && Possible(w, choice)
    ensures w'.Valid() && w'.listenfd == w.listenfd
  {
    ServeAll(Admitted(w, choice), choice.readable - {w.listenfd}, choice.readings)
  }

  ghost predicate PossibleRun(w: World, choices: seq<Choice>)
    requires w.Valid()
    decreases |choices|
  {
    choices == [] || (Possible(w, choices[0]) && PossibleRun(Round(w, choices[0]), choices[1..]))
  }

  ghost function Rounds(w: World, choices: seq<Choice>): (w': World)
    requires w.Valid() && PossibleRun(w, choices)
    ensures w'.Valid() && w'.listenfd == w.listenfd
    decreases |choices|
  {
    if choices == [] then w else Rounds(Round(w, choices[0]), choices[1..])
  }

  /* ----- facts about descriptors that both servers need ----- */

  // The members of s at or above fd: what a scan that has reached fd still has to do.
  ghost function From(s: set<nat>, fd: int): set<nat> {
    set x | x in s && fd <= x
  }

  lemma FromStep(s: set<nat>, fd: nat)
    ensures fd !in s ==> From(s, fd + 1) == From(s, fd)
    ensures fd in s ==> From(s, fd) != {} && Least(From(s, fd)) == fd
    ensures fd in s ==> From(s, fd + 1) == From(s, fd) - {fd}
    ensures fd in s ==> |From(s, fd + 1)| == |From(s, fd)| - 1
  {
    if fd in s {
      assert fd in From(s, fd);
      assert From(s, fd + 1) == From(s, fd) - {fd};
    } else {
      assert From(s, fd + 1) == From(s, fd);
    }
  }

  // A scan that has reached a ready descriptor serves it next.
  lemma ScanServes(w: World, s: set<nat>, fd: nat, readings: map<nat, Reading>)
    requires w.Valid() && fd in s && From(s, fd) <= w.table.Keys && From(s, fd) <= readings.Keys
    ensures fd in w.table && fd in readings
    ensures var w' := Serve(w, fd, readings[fd]);
            && From(s, fd + 1) <= w'.table.Keys
            && ServeAll(w, From(s, fd), readings) == ServeAll(w', From(s, fd + 1), readings)
  {
    FromStep(s, fd);
  }

  lemma AllClients(w: World, s: set<nat>)
    requires w.Valid() && s <= w.table.Keys
    ensures From(s, w.listenfd + 1) == s
  {
  }

  // Nothing is left for a scan that has passed the last place ever used.
  lemma NoneAbove(w: World, s: set<nat>, fd: int)
    requires w.Valid() && From(s, fd) <= w.table.Keys && fd > w.listenfd + w.peak
    ensures From(s, fd) == {}
  {
    if x :| x in From(s, fd) {
      OpenBound(w, x);
    }
  }

  lemma NoneReady(w: World, readings: map<nat, Reading>)
    requires w.Valid()
    ensures ServeAll(w, {}, readings) == w
  {
  }

  lemma ScanEnds(w: World, s: set<nat>, fd: nat, readings: map<nat, Reading>)
    requires w.Valid() && |From(s, fd)| == 0
    ensures From(s, fd) == {} && ServeAll(w, From(s, fd), readings) == w
  {
  }

  // A server that watches the listening socket and every open descriptor, with nfds above
  // them all, is told of every readable descriptor.
  lemma AllReported(w: World, choice: Choice, nfds: int, watched: set<nat>)
    requires w.Valid() && Possible(w, choice)
    requires watched == {w.listenfd} + w.table.Keys && nfds > w.listenfd + w.peak
    ensures (set fd | fd in choice.readable && fd in watched && fd < nfds) == choice.readable
    ensures choice.readable - {w.listenfd} <= w.table.Keys
  {
  }

  lemma WithoutMember<T>(s: set<T>, x: T)
    ensures x in s ==> |s - {x}| == |s| - 1
    ensures x !in s ==> s - {x} == s
  {
  }

  /** The kernel object.  Each method is one system call. */
  class Kernel {
    var world: World
    var now: Choice

    constructor (w: World)
      ensures world == w
    {
      world := w;
      now := Choice({}, map[]);
    }

    // select(nfds, &rset, NULL, NULL, NULL): only watched descriptors below nfds are reported.
    method Select(nfds: int, watched: set<nat>, choice: Choice) returns (ready: set<nat>, n: int)
      modifies this`now
      ensures now == choice
      ensures ready == (set fd | fd in choice.readable && fd in watched && fd < nfds) && n == |ready|
    {
      now := choice;
      ready := set fd | fd in choice.readable && fd in watched && fd < nfds;
      n := |ready|;
    }

    method Accept() returns (fd: nat)
      requires world.Valid() && world.backlog != []
      modifies this`world
      ensures world == Accepted(old(world)) && fd == NextFd(old(world))
    {
      fd := NextFd(world);
      world := Accepted(world);
    }

    method Read(fd: nat) returns (n: int, data: seq<byte>)
      requires world.Valid() && fd in world.table && fd in now.readings
      modifies this`world
      ensures world == AfterRead(old(world), fd, now.readings[fd])
      ensures (n, data) == Answer(old(world), fd, now.readings[fd])
    {
      var a := Answer(world, fd, now.readings[fd]);
      n, data := a.0, a.1;
      world := AfterRead(world, fd, now.readings[fd]);
    }

    method Write(fd: nat, data: seq<byte>)
      requires world.Valid() && fd in world.table
      modifies this`world
      ensures world == AfterWrite(old(world), fd, data)
    {
      world := AfterWrite(world, fd, data);
    }

    method Close(fd: nat)
      requires world.Valid() && fd in world.table
      modifies this`world
      ensures world == AfterClose(old(world), fd)
    {
      world := AfterClose(world, fd);
    }
  }
}
