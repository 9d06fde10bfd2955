/** The select server that scans every descriptor number (06/server.c, main). */
module ScanServer {
  import opened Bytes
  import opened Sockets

  /* ----- line 81 ----- */

  // The results of read at which the store to buffer[ret] misses the buffer: an error's -1, and a
  // full buffer.  (With -1 line 83 also passes a length that no buffer has.)
  predicate Strays(ret: int) {
    ret < 0 || ret >= BUFSIZE
  }

  // Some client in s is going to be read with such a result.
  ghost predicate SomeStrays(w: World, s: set<nat>, readings: map<nat, Reading>)
    requires w.Valid() && s <= w.table.Keys && s <= readings.Keys
  {
    exists fd :: fd in s && Strays(Answer(w, fd, readings[fd]).0)
  }

  ghost predicate RoundStrays(w: World, choice: Choice)
    requires w.Valid() && Possible(w, choice)
  {
    SomeStrays(Admitted(w, choice), choice.readable - {w.listenfd}, choice.readings)
  }

  ghost predicate RunStrays(w: World, choices: seq<Choice>)
    requires w.Valid() && PossibleRun(w, choices)
    decreases |choices|
  {
    choices != [] && (RoundStrays(w, choices[0]) || RunStrays(Sockets.Round(w, choices[0]), choices[1..]))
  }

  // The calls up to and with the first such read.
  predicate IsStray(e: Event) {
    e.Read? && Strays(e.n)
  }

  ghost predicate Clean(t: seq<Event>) {
    forall e | e in t :: !IsStray(e)
  }

  function UntilStray(t: seq<Event>): seq<Event> {
    if t == [] || IsStray(t[0]) then t[..Min(1, |t|)] else [t[0]] + UntilStray(t[1..])
  }

  lemma {:induction false} UntilClean(t: seq<Event>)
    requires Clean(t)
    ensures UntilStray(t) == t
  {
    if t != [] {
      UntilClean(t[1..]);
    }
  }

  lemma {:induction false} UntilFirst(t: seq<Event>, e: Event, later: seq<Event>)
    requires Clean(t) && IsStray(e)
    ensures UntilStray(t + [e] + later) == t + [e]
  {
    var all := t + [e] + later;
    if t == [] {
      assert all[0] == e;
    } else {
      assert all[0] == t[0] && t[0] in t && all[1..] == t[1..] + [e] + later;
      UntilFirst(t[1..], e, later);
    }
  }

  // Serving one client does not change what a read of another returns.
  lemma ServeKeepsAnswer(w: World, fd: nat, r: Reading, x: nat, rx: Reading)
    requires w.Valid() && fd in w.table && x in w.table && x != fd
    ensures x in Serve(w, fd, r).table && Answer(Serve(w, fd, r), x, rx) == Answer(w, x, rx)
  {
  }

  // A scan that has passed a client that is read well still has the same clients that are not.
  lemma StraysStep(w: World, s: set<nat>, fd: nat, readings: map<nat, Reading>)
    requires w.Valid() && fd in s && From(s, fd) <= w.table.Keys && From(s, fd) <= readings.Keys
    requires fd in w.table && fd in readings && From(s, fd + 1) <= Serve(w, fd, readings[fd]).table.Keys
    ensures SomeStrays(w, From(s, fd), readings)
            <==> Strays(Answer(w, fd, readings[fd]).0)
                 || SomeStrays(Serve(w, fd, readings[fd]), From(s, fd + 1), readings)
  {
    hide World.Valid, Serve, Answer, Strays;
    FromStep(s, fd);
    var w' := Serve(w, fd, readings[fd]);
    forall x | x in From(s, fd + 1) ensures Answer(w', x, readings[x]) == Answer(w, x, readings[x]) {
      ServeKeepsAnswer(w, fd, readings[fd], x, readings[x]);
    }
    if x :| x in From(s, fd) && Strays(Answer(w, x, readings[x]).0) && x != fd {
      assert x in From(s, fd + 1);
    }
  }

  lemma CleanServe(w: World, fd: nat, r: Reading)
    requires w.Valid() && fd in w.table && Clean(w.trace) && !Strays(Answer(w, fd, r).0)
    ensures Clean(Serve(w, fd, r).trace)
  {
  }

  lemma CleanAccept(w: World)
    requires w.Valid() && w.backlog != [] && Clean(w.trace)
    ensures Clean(Accepted(w).trace)
  {
  }

  // Events are only ever added.
  lemma ServeGrows(w: World, fd: nat, r: Reading)
    requires w.Valid() && fd in w.table
    ensures w.trace <= AfterRead(w, fd, r).trace <= Serve(w, fd, r).trace
  {
  }

  lemma {:induction false} ServeAllGrows(w: World, s: set<nat>, readings: map<nat, Reading>)
    requires w.Valid() && s <= w.table.Keys && s <= readings.Keys
    ensures w.trace <= ServeAll(w, s, readings).trace
    decreases s
  {
    hide World.Valid, Serve;
    if s != {} {
      var m := Least(s);
      ServeGrows(w, m, readings[m]);
      ServeAllGrows(Serve(w, m, readings[m]), s - {m}, readings);
    }
  }

  lemma {:induction false} RunGrows(w: World, choices: seq<Choice>)
    requires w.Valid() && PossibleRun(w, choices)
    ensures w.trace <= Rounds(w, choices).trace
    decreases |choices|
  {
    if choices != [] {
      var choice := choices[0];
      assert w.trace <= Admitted(w, choice).trace;
      ServeAllGrows(Admitted(w, choice), choice.readable - {w.listenfd}, choice.readings);
      RunGrows(Sockets.Round(w, choice), choices[1..]);
    }
  }

  // The scan stops at client fd, whose read is the first stray one.
  lemma StopsThere(w: World, s: set<nat>, fd: nat, readings: map<nat, Reading>)
    requires w.Valid() && s <= w.table.Keys && s <= readings.Keys && s != {} && fd == Least(s)
    requires Clean(w.trace) && Strays(Answer(w, fd, readings[fd]).0)
    ensures AfterRead(w, fd, readings[fd]).trace == UntilStray(ServeAll(w, s, readings).trace)
    ensures !Clean(AfterRead(w, fd, readings[fd]).trace)
  {
    hide World.Valid, Serve, Strays, Answer, Least;
    var e := Read(fd, Answer(w, fd, readings[fd]).0, Answer(w, fd, readings[fd]).1);
    ServeGrows(w, fd, readings[fd]);
    ServeAllGrows(Serve(w, fd, readings[fd]), s - {fd}, readings);
    var all := ServeAll(w, s, readings).trace;
    assert AfterRead(w, fd, readings[fd]).trace == w.trace + [e] <= all;
    UntilFirst(w.trace, e, all[|w.trace| + 1..]);
    assert all == w.trace + [e] + all[|w.trace| + 1..];
    assert e in w.trace + [e];
  }

  lemma {:induction false} UntilLonger(t: seq<Event>, u: seq<Event>)
    requires t <= u && !Clean(t)
    ensures UntilStray(u) == UntilStray(t)
  {
    if !IsStray(t[0]) {
      assert !Clean(t[1..]) by {
        var e :| e in t && IsStray(e);
        assert t == [t[0]] + t[1..];
      }
      UntilLonger(t[1..], u[1..]);
    }
  }

  lemma {:induction false} UntilIsPrefix(t: seq<Event>)
    ensures UntilStray(t) <= t
    ensures !Clean(UntilStray(t)) ==> !Clean(t)
  {
    if t != [] && !IsStray(t[0]) {
      UntilIsPrefix(t[1..]);
    }
  }

  class Server {
    const kernel: Kernel
    const listenFd: nat
    var readFds: set<nat>
    var maxFd: nat
    var undefined: bool   // line 81 has stored outside the buffer

    ghost predicate Valid()
      reads this, kernel
    {
      var w := kernel.world;
      && w.Valid() && w.listenfd == listenFd && Clean(w.trace)
      && readFds == {listenFd} + w.table.Keys
      && maxFd == listenFd + w.peak
    }

    // Lines 52-54.
    constructor (k: Kernel, fd: nat)
      requires k.world.Valid() && k.world.listenfd == fd
      requires k.world.table == map[] && k.world.peak == 0 && k.world.trace == []
      ensures Valid() && !undefined && kernel == k && listenFd == fd
    {
      kernel := k;
      listenFd := fd;
      readFds := {fd};
      maxFd := fd;
      undefined := false;
    }

    // Lines 64-68.
    method TakeConnection()
      requires Valid() && kernel.world.backlog != []
      modifies this`readFds, this`maxFd, kernel`world
      ensures Valid() && kernel.world == Accepted(old(kernel.world))
    {
      hide World.Valid, Accepted, NextFd, Clean;
      ghost var before := kernel.world;
      NextFdBound(before);
      CleanAccept(before);
      var connFd := kernel.Accept();
      Insert({listenFd}, before.table.Keys, connFd);
      readFds := readFds + {connFd};
      if connFd > maxFd {
        maxFd := connFd;
      }
    }

    // Lines 72-84: one readable client.  What happens after a stray store is left to the compiler.
    method ServeClient(fd: nat)
      requires Valid() && !undefined && fd in kernel.world.table && fd in kernel.now.readings
      modifies this`readFds, this`undefined, kernel`world
      ensures undefined <==> Strays(Answer(old(kernel.world), fd, kernel.now.readings[fd]).0)
      ensures !undefined ==> Valid() && kernel.world == Serve(old(kernel.world), fd, kernel.now.readings[fd])
      ensures undefined ==> kernel.world == AfterRead(old(kernel.world), fd, kernel.now.readings[fd])
    {
      hide World.Valid, AfterRead, AfterClose, AfterWrite, Clean;
      OpenBound(kernel.world, fd);
      if !Strays(Answer(kernel.world, fd, kernel.now.readings[fd]).0) {
        CleanServe(kernel.world, fd, kernel.now.readings[fd]);
      }
      var ret, buffer := kernel.Read(fd);
      if ret == 0 {
        kernel.Close(fd);
        readFds := readFds - {fd};
      } else if Strays(ret) {
        undefined := true;
      } else {
        kernel.Write(fd, buffer);
      }
    }

    // Lines 70-86: scan every descriptor number up to the largest seen.
    method ServeReady(tempFds: set<nat>, ghost clients: set<nat>)
      requires Valid() && !undefined && clients == tempFds - {listenFd}
      requires clients <= kernel.world.table.Keys && clients <= kernel.now.readings.Keys
      modifies this`readFds, this`undefined, kernel`world
      ensures undefined <==> SomeStrays(old(kernel.world), clients, kernel.now.readings)
      ensures !undefined ==>
                Valid() && kernel.world == ServeAll(old(kernel.world), clients, kernel.now.readings)
      ensures undefined ==> !Clean(kernel.world.trace)
      ensures kernel.world.trace == UntilStray(ServeAll(old(kernel.world), clients, kernel.now.readings).trace)
    {
      hide World.Valid, Serve, ServeAll, From, Answer, SomeStrays, Strays;
      AllClients(kernel.world, clients);
      ghost var readings := kernel.now.readings;
      var i := listenFd + 1;
      while i <= maxFd
        invariant listenFd < i <= maxFd + 1
        invariant Valid() && !undefined
        invariant From(clients, i) <= kernel.world.table.Keys
        invariant From(clients, i) <= readings.Keys
        invariant ServeAll(kernel.world, From(clients, i), readings)
               == ServeAll(old(kernel.world), clients, readings)
        invariant SomeStrays(kernel.world, From(clients, i), readings)
             <==> SomeStrays(old(kernel.world), clients, readings)
      {
        FromStep(clients, i);
        if i in tempFds {
          ghost var before := kernel.world;
          ScanServes(before, clients, i, readings);
          StraysStep(before, clients, i, readings);
          ServeClient(i);
          if undefined {
            StopsThere(before, From(clients, i), i, readings);
            return;
          }
        }
        i := i + 1;
      }
      NoneAbove(kernel.world, clients, i);
      NoneReady(kernel.world, readings);
      NoStrays(kernel.world, readings);
      UntilClean(kernel.world.trace);
    }

    // Lines 58-87: one round of the loop.
    method Round(choice: Choice)
      requires Valid() && !undefined && Possible(kernel.world, choice)
      modifies this, kernel
      ensures undefined <==> RoundStrays(old(kernel.world), choice)
      ensures !undefined ==> Valid() && kernel.world == Sockets.Round(old(kernel.world), choice)
      ensures undefined ==> !Clean(kernel.world.trace)
      ensures kernel.world.trace == UntilStray(Sockets.Round(old(kernel.world), choice).trace)
    {
      hide World.Valid, Serve, ServeAll, Accepted, NextFd, SomeStrays;
      AllReported(kernel.world, choice, maxFd + 1, readFds);
      var tempFds, ret := kernel.Select(maxFd + 1, readFds, choice);
      if ret > 0 {
        if listenFd in tempFds {
          TakeConnection();
        }
        ServeReady(tempFds, tempFds - {listenFd});
      }
    }

    // Any number of rounds of the endless loop.
    method Run(choices: seq<Choice>)
      requires Valid() && !undefined && PossibleRun(kernel.world, choices)
      modifies this, kernel
      ensures undefined <==> RunStrays(old(kernel.world), choices)
      ensures !undefined ==> Valid() && kernel.world == Rounds(old(kernel.world), choices)
      ensures kernel.world.trace == UntilStray(Rounds(old(kernel.world), choices).trace)
    {
      hide RoundStrays, Possible, World.Valid, Sockets.Round;
      for r := 0 to |choices|
        invariant Valid() && !undefined && PossibleRun(kernel.world, choices[r..])
        invariant RunStrays(kernel.world, choices[r..]) <==> RunStrays(old(kernel.world), choices)
        invariant Rounds(kernel.world, choices[r..]) == Rounds(old(kernel.world), choices)
      {
        assert choices[r..][1..] == choices[r + 1..];
        ghost var next := Sockets.Round(kernel.world, choices[r]);
        Round(choices[r]);
        if undefined {
          RunGrows(next, choices[r + 1..]);
          UntilIsPrefix(next.trace);
          UntilLonger(next.trace, Rounds(next, choices[r + 1..]).trace);
          return;
        }
      }
      UntilClean(kernel.world.trace);
    }
  }

  lemma NoStrays(w: World, readings: map<nat, Reading>)
    requires w.Valid()
    ensures !SomeStrays(w, {}, readings)
  {
  }
}
