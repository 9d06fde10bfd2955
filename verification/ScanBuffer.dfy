/** When the store of 06/server.c, line 81, stays inside the buffer it is meant for. */
module ScanBuffer {
  import opened Bytes
  import opened Sockets
  import opened ScanServer
  import opened SelectTheorems

  /* ----- what the trace shows ----- */

  lemma StrayAppend(t: seq<Event>, e: Event)
    ensures !Clean(t + [e]) <==> !Clean(t) || (e.Read? && Strays(e.n))
  {
    assert e in t + [e];
    assert forall x | x in t :: x in t + [e];
  }

  lemma ServeShows(w: World, fd: nat, r: Reading)
    requires w.Valid() && fd in w.table
    ensures !Clean(Serve(w, fd, r).trace) <==> !Clean(w.trace) || Strays(Answer(w, fd, r).0)
  {
    hide Clean, Strays;
    var (n, data) := Answer(w, fd, r);
    StrayAppend(w.trace, Read(fd, n, data));
    StrayAppend(w.trace + [Read(fd, n, data)], Close(fd));
    StrayAppend(w.trace + [Read(fd, n, data)], Write(fd, data));
  }

  lemma {:induction false} ServeAllShows(w: World, s: set<nat>, readings: map<nat, Reading>)
    requires w.Valid() && s <= w.table.Keys && s <= readings.Keys
    ensures !Clean(ServeAll(w, s, readings).trace) <==> !Clean(w.trace) || SomeStrays(w, s, readings)
    decreases s
  {
    hide World.Valid, Serve, Answer, Clean, Strays;
    if s != {} {
      var m := Least(s);
      var w' := Serve(w, m, readings[m]);
      ServeShows(w, m, readings[m]);
      ServeAllShows(w', s - {m}, readings);
      forall x | x in s - {m} ensures Answer(w', x, readings[x]) == Answer(w, x, readings[x]) {
        ServeKeepsAnswer(w, m, readings[m], x, readings[x]);
      }
    }
  }

  // RunStrays says that one of the reads of the run stores outside the buffer.
  lemma {:induction false} RunShows(w: World, choices: seq<Choice>)
    requires w.Valid() && PossibleRun(w, choices)
    ensures !Clean(Rounds(w, choices).trace) <==> !Clean(w.trace) || RunStrays(w, choices)
    decreases |choices|
  {
    hide World.Valid, Clean, SomeStrays;
    if choices != [] {
      var choice := choices[0];
      AdmittedShows(w, choice);
      ServeAllShows(Admitted(w, choice), choice.readable - {w.listenfd}, choice.readings);
      RunShows(Round(w, choice), choices[1..]);
    }
  }

  lemma AdmittedShows(w: World, choice: Choice)
    requires w.Valid() && Possible(w, choice)
    ensures !Clean(Admitted(w, choice).trace) <==> !Clean(w.trace)
  {
    hide World.Valid, Clean;
    StrayAppend(w.trace, Accept(NextFd(w)));
  }

  /* ----- what a caller can make sure of ----- */

  ghost predicate ShortReads(choice: Choice) {
    forall fd | fd in choice.readings && choice.readings[fd].Chunk? :: choice.readings[fd].size < BUFSIZE
  }

  ghost predicate ShortInputs(inputs: seq<seq<byte>>) {
    forall i | 0 <= i < |inputs| :: |inputs[i]| < 1024
  }

  lemma RoundInside(w: World, choice: Choice)
    requires w.Valid() && Possible(w, choice) && !choice.Fails(w.listenfd)
    requires ShortReads(choice) || ShortInputs(Demand(w))
    ensures !RoundStrays(w, choice)
  {
    hide World.Valid, Answer, Strays, Demand, Accepted, NextFd;
    var w1 := Admitted(w, choice);
    if w.listenfd in choice.readable {
      AcceptedDemand(w);
    }
    forall fd | fd in choice.readable && fd != w.listenfd ensures !Strays(Answer(w1, fd, choice.readings[fd]).0) {
      AnswerShort(w1, fd, choice.readings[fd]);
    }
  }

  lemma AnswerShort(w: World, fd: nat, r: Reading)
    requires w.Valid() && fd in w.table && r.Chunk?
    requires r.size < BUFSIZE || ShortInputs(Demand(w))
    ensures !Strays(Answer(w, fd, r).0)
  {
    assert w.table[fd] < |w.conns| && Demand(w)[w.table[fd]] == w.conns[w.table[fd]].input;
  }

  // While no read fails and either the kernel returns less than a buffer at a time or no client
  // sends a buffer's worth, the store stays inside.
  lemma {:induction false} RunInside(w: World, choices: seq<Choice>)
    requires w.Valid() && PossibleRun(w, choices) && NoneFails(choices, w.listenfd)
    requires (forall c | c in choices :: ShortReads(c)) || ShortInputs(Demand(w))
    ensures !RunStrays(w, choices)
    decreases |choices|
  {
    hide World.Valid, Choice.Fails, ShortReads, ShortInputs, RoundStrays, Demand;
    if choices != [] {
      RoundInside(w, choices[0]);
      RoundDemand(w, choices[0]);
      RunInside(Round(w, choices[0]), choices[1..]);
    }
  }

  // There are descriptors left for everyone who waits.
  ghost predicate Room(w: World) {
    && w.Valid() && |w.table| <= |w.conns| && w.peak <= |w.conns|
    && w.listenfd + |w.conns| + |w.backlog| < FD_SETSIZE
  }

  lemma RoomToAccept(w: World)
    requires Room(w) && w.backlog != []
    ensures Possible(w, Choice({w.listenfd}, map[])) && Round(w, Choice({w.listenfd}, map[])) == Accepted(w)
    ensures Room(Accepted(w)) && Demand(Accepted(w)) == Demand(w)
    ensures Accepted(w).conns[..|w.conns|] == w.conns
    ensures |Accepted(w).conns| == |w.conns| + 1 && |Accepted(w).backlog| == |w.backlog| - 1
    ensures var c := Accepted(w).conns[|w.conns|]; c.open && c.taken == 0
  {
    hide World.Valid, NextFd, Demand;
    NextFdBound(w);
    NoneReady(Accepted(w), map[]);
    AcceptedDemand(w);
    WithoutMember(w.table.Keys + {NextFd(w)}, NextFd(w));
    assert w.table.Keys + {NextFd(w)} - {NextFd(w)} == w.table.Keys;
    assert |Accepted(w).table.Keys| == |Accepted(w).table| && |w.table| == |w.table.Keys|;
    assert {w.listenfd} - {w.listenfd} == {};
  }

  // A run that accepts client j and then reads a full buffer from it.
  lemma {:induction false} FullRead(w: World, j: nat) returns (choices: seq<Choice>)
    requires Room(w) && j < |w.conns| + |w.backlog| && |Demand(w)[j]| >= BUFSIZE
    requires j < |w.conns| ==> w.conns[j].open && w.conns[j].taken == 0
    ensures PossibleRun(w, choices) && RunStrays(w, choices)
    ensures NoneFails(choices, w.listenfd)
    decreases |w.backlog|
  {
    if j < |w.conns| {
      choices := FullReadNow(w, j);
    } else {
      RoomToAccept(w);
      var rest := FullRead(Accepted(w), j);
      var choice := Choice({w.listenfd}, map[]);
      choices := [choice] + rest;
      assert choices[1..] == rest;
    }
  }

  lemma FullReadNow(w: World, j: nat) returns (choices: seq<Choice>)
    requires w.Valid() && j < |w.conns| && |Demand(w)[j]| >= BUFSIZE && w.conns[j].open && w.conns[j].taken == 0
    ensures PossibleRun(w, choices) && RunStrays(w, choices)
    ensures NoneFails(choices, w.listenfd)
  {
    var fd := w.conns[j].fd;
    var choice := Choice({fd}, map[fd := Chunk(BUFSIZE)]);
    assert fd in choice.readable - {w.listenfd} && Strays(Answer(w, fd, choice.readings[fd]).0);
    assert Admitted(w, choice) == w && Possible(w, choice);
    choices := [choice];
    assert choices[1..] == [];
    assert RoundStrays(w, choice);
  }

  // So whatever the schedule, the store stays inside if and only if no read fails and no client
  // sends as much as the buffer holds.
  lemma InsideWhenShort(listenfd: nat, backlog: seq<seq<byte>>)
    requires listenfd + |backlog| < FD_SETSIZE
    ensures (forall choices | PossibleRun(InitialWorld(listenfd, backlog), choices) && NoneFails(choices, listenfd) ::
               !RunStrays(InitialWorld(listenfd, backlog), choices))
            <==> ShortInputs(backlog)
  {
    var w := InitialWorld(listenfd, backlog);
    assert Demand(w) == backlog;
    if ShortInputs(backlog) {
      forall choices | PossibleRun(w, choices) && NoneFails(choices, listenfd)
        ensures !RunStrays(w, choices)
      {
        RunInside(w, choices);
      }
    } else {
      var j :| 0 <= j < |backlog| && |backlog[j]| >= BUFSIZE;
      var choices := FullRead(w, j);
    }
  }
}
