/**
 The clients of Fleet leave the kernel every freedom it has: whatever the select server can meet
 without failing reads it meets in a run with clients.
 */
module FleetSchedules {
  import opened Bytes
  import opened EchoLink
  import opened Runs
  import opened Sockets
  import opened Clients
  import opened Fleet
  import FleetTrace
  import Relay

  ghost predicate AllSent(s: State) {
    forall i | 0 <= i < |s.clients| :: s.clients[i].link.fin
  }

  /* ----- every client sends all it has ----- */

  lemma {:induction false} SendOne(s0: State, run0: seq<Action>, i: nat) returns (run: seq<Action>)
    requires IsRun(Enabled, Step, s0, run0)
    requires var s := End(Enabled, Step, s0, run0);
             s.w.Valid() && i < |s.clients| && s.clients[i].pc == Relay.AtSelect && !s.clients[i].eof
             && s.clients[i].halfClose
    ensures IsRun(Enabled, Step, s0, run)
    ensures var s, t := End(Enabled, Step, s0, run0), End(Enabled, Step, s0, run);
            && |t.clients| == |s.clients| && t == s.(clients := s.clients[i := t.clients[i]])
            && t.clients[i].link.fin
    decreases |End(Enabled, Step, s0, run0).clients[i].unread|
  {
    hide IsRun, End, World.Valid;
    var unread := End(Enabled, Step, s0, run0).clients[i].unread;
    run := Extend(Enabled, Step, s0, run0, OfClient(i, Relay.Select(false, true)));
    run := Extend(Enabled, Step, s0, run, OfClient(i, Relay.ReadStdin(Min(1, |unread|))));
    if unread == [] {
      run := Extend(Enabled, Step, s0, run, OfClient(i, Relay.Shutdown));
    } else {
      run := Extend(Enabled, Step, s0, run, OfClient(i, Relay.WriteSock));
      run := SendOne(s0, run, i);
    }
  }

  lemma {:induction false} SendAll(listenfd: nat, inputs: seq<seq<byte>>, k: nat) returns (run: seq<Action>)
    requires k <= |inputs|
    ensures IsRun(Enabled, Step, Start(listenfd, inputs), run)
    ensures var s, t := Start(listenfd, inputs), End(Enabled, Step, Start(listenfd, inputs), run);
            && |t.clients| == |inputs| && t == s.(clients := t.clients)
            && (forall i | 0 <= i < k :: t.clients[i].link.fin)
            && (forall i | k <= i < |inputs| :: t.clients[i] == s.clients[i])
  {
    if k == 0 {
      run := [];
    } else {
      run := SendAll(listenfd, inputs, k - 1);
      hide IsRun, End;
      run := SendOne(Start(listenfd, inputs), run, k - 1);
    }
  }

  /* ----- a round ----- */

  // What a read returns is what the client has sent and the server has not read.
  lemma ReadFits(s: State, fd: nat, r: Reading)
    requires Inv(s) && s.pc == AtRead && s.Behind(fd) && s.Client(fd).link.fin && r.Chunk? && r.size >= 1
    ensures var n := Answer(s.w, fd, r).0;
            && n >= 0 && CanServe(s.Client(fd).link, if n > 0 then Take(n) else Shut)
            && AfterRead(s.w, fd, Chunk(Max(n, 1))) == AfterRead(s.w, fd, r)
            && Answer(s.w, fd, Chunk(Max(n, 1))) == Answer(s.w, fd, r)
  {
    hide World.Valid;
    CoupledBehind(s, fd);
    LinkOpen(s, fd);
    AllOfIt(s.Client(fd));
  }

  lemma AllOfIt(r: Relay.State)
    requires Relay.Inv(r) && r.link.fin
    ensures Fleet.Sent(r) == |r.input|
  {
  }

  // The call that follows a read is never held up.
  lemma AnswerEnabled(s: State)
    requires Inv(s)
    ensures s.pc.AtWrite? ==> Enabled(s, WriteBack)
    ensures s.pc.AtClose? ==> Enabled(s, CloseEnded)
  {
    hide World.Valid, Coupled;
    if s.pc.AtWrite? || s.pc.AtClose? {
      LinkOpen(s, s.pc.fd);
    }
  }

  lemma ReadShows(s: State, fd: nat, r: Reading) returns (a: Action)
    requires Inv(s) && AllSent(s) && s.pc == AtRead && fd in s.Todo() && (forall x | x in s.Todo() :: fd <= x)
    requires r.Chunk? && r.size >= 1
    ensures Enabled(s, a)
    ensures var t, n := Step(s, a), Answer(s.w, fd, r).0;
            && t.w == AfterRead(s.w, fd, r) && AllSent(t) && |t.clients| == |s.clients| && t.past == s.past
            && t.Todo() == s.Todo() - {fd}
            && t.pc == if n > 0 then AtWrite(fd, Answer(s.w, fd, r).1) else AtClose(fd)
  {
    hide World.Valid, Coupled, Answer, AfterRead;
    ReadFits(s, fd, r);
    var n := Answer(s.w, fd, r).0;
    a := ReadNext(fd, n);
    assert CanDo(s, fd, if n > 0 then Take(n) else Shut);
  }

  lemma AnswerShows(s: State) returns (a: Action)
    requires Inv(s) && AllSent(s) && (s.pc.AtWrite? || s.pc.AtClose?)
    ensures Enabled(s, a)
    ensures var t := Step(s, a);
            && t.w == (if s.pc.AtWrite? then AfterWrite(s.w, s.pc.fd, s.pc.data) else AfterClose(s.w, s.pc.fd))
            && AllSent(t) && |t.clients| == |s.clients|
            && (if s.Todo() == {} then t.pc == AtSelect else t.pc == AtRead && t.Todo() == s.Todo())
  {
    hide World.Valid, Coupled, AfterWrite, AfterClose;
    AnswerEnabled(s);
    a := if s.pc.AtWrite? then WriteBack else CloseEnded;
  }

  lemma ServeOne(s0: State, run0: seq<Action>, fd: nat, r: Reading) returns (run: seq<Action>)
    requires IsRun(Enabled, Step, s0, run0)
    requires var s := End(Enabled, Step, s0, run0);
             && Inv(s) && AllSent(s) && s.pc == AtRead && fd in s.Todo() && (forall x | x in s.Todo() :: fd <= x)
    requires r.Chunk? && r.size >= 1
    ensures IsRun(Enabled, Step, s0, run)
    ensures var s, t := End(Enabled, Step, s0, run0), End(Enabled, Step, s0, run);
            && Inv(t) && AllSent(t) && t.w == Serve(s.w, fd, r)
            && (if s.Todo() == {fd} then t.pc == AtSelect else t.pc == AtRead && t.Todo() == s.Todo() - {fd})
  {
    hide IsRun, End, Inv, Enabled, Step, AllSent, AfterRead, AfterWrite, AfterClose, Answer;
    var s := End(Enabled, Step, s0, run0);
    TodoBehind(s, fd);
    var a := ReadShows(s, fd, r);
    StepKeeps(s, a);
    run := Extend(Enabled, Step, s0, run0, a);
    var t := Step(s, a);
    var b := AnswerShows(t);
    StepKeeps(t, b);
    run := Extend(Enabled, Step, s0, run, b);
  }

  lemma TodoBehind(s: State, fd: nat)
    requires Inv(s) && s.pc == AtRead && fd in s.Todo()
    ensures s.w.Valid() && fd in s.w.table
  {
  }

  lemma {:induction false} ServeRest(s0: State, run0: seq<Action>, readings: map<nat, Reading>)
    returns (run: seq<Action>)
    requires IsRun(Enabled, Step, s0, run0)
    requires var s := End(Enabled, Step, s0, run0);
             && Inv(s) && AllSent(s) && s.pc == AtRead && s.Todo() <= readings.Keys
             && (forall fd | fd in s.Todo() :: readings[fd].Chunk? && readings[fd].size >= 1)
    ensures End(Enabled, Step, s0, run0).w.Valid()
    ensures End(Enabled, Step, s0, run0).Todo() <= End(Enabled, Step, s0, run0).w.table.Keys
    ensures IsRun(Enabled, Step, s0, run)
    ensures var s, t := End(Enabled, Step, s0, run0), End(Enabled, Step, s0, run);
            Inv(t) && AllSent(t) && t.pc == AtSelect && t.w == ServeAll(s.w, s.Todo(), readings)
    decreases End(Enabled, Step, s0, run0).Todo()
  {
    hide IsRun, End, Inv, Enabled, Step, AllSent, World.Valid, Serve;
    var s := End(Enabled, Step, s0, run0);
    TodoInTable(s);
    var fd := Least(s.Todo());
    run := ServeOne(s0, run0, fd, readings[fd]);
    if s.Todo() == {fd} {
      NoneReady(Serve(s.w, fd, readings[fd]), readings);
      assert s.Todo() - {fd} == {};
    } else {
      run := ServeRest(s0, run, readings);
    }
  }

  lemma TodoInTable(s: State)
    requires Inv(s) && s.pc == AtRead
    ensures s.w.Valid() && s.Todo() != {} && s.Todo() <= s.w.table.Keys
  {
  }

  // select reports what the kernel has chosen, and a waiting client is accepted.
  lemma BeginRound(s0: State, run0: seq<Action>, choice: Choice) returns (run: seq<Action>)
    requires IsRun(Enabled, Step, s0, run0)
    requires var s := End(Enabled, Step, s0, run0);
             Inv(s) && AllSent(s) && s.pc == AtSelect && Possible(s.w, choice)
    ensures IsRun(Enabled, Step, s0, run) && End(Enabled, Step, s0, run0).w.Valid()
    ensures var s, t := End(Enabled, Step, s0, run0), End(Enabled, Step, s0, run);
            && Inv(t) && AllSent(t) && t.w == Admitted(s.w, choice)
            && (if choice.readable == {s.w.listenfd} then t.pc == AtSelect
                else t.pc == AtRead && t.Todo() == choice.readable - {s.w.listenfd})
  {
    hide IsRun, End, Inv, Enabled, Step, AllSent, Admitted;
    var s := End(Enabled, Step, s0, run0);
    SelectShows(s, choice);
    StepKeeps(s, Select(choice.readable));
    run := Extend(Enabled, Step, s0, run0, Select(choice.readable));
    if s.w.listenfd in choice.readable {
      var t := Step(s, Select(choice.readable));
      AcceptShown(t, choice);
      StepKeeps(t, AcceptNext);
      run := Extend(Enabled, Step, s0, run, AcceptNext);
    }
  }

  lemma SelectShows(s: State, choice: Choice)
    requires Inv(s) && AllSent(s) && s.pc == AtSelect && Possible(s.w, choice)
    ensures s.w.Valid() && Enabled(s, Select(choice.readable))
    ensures var t := Step(s, Select(choice.readable));
            && t.w == s.w && AllSent(t) && t.now == Choice(choice.readable, map[])
            && t.Todo() == choice.readable - {s.w.listenfd}
            && t.pc == (if s.w.listenfd in choice.readable then AtAccept else AtRead)
            && (s.w.listenfd !in choice.readable ==> Admitted(s.w, choice) == s.w)
  {
    hide Coupled;
  }

  lemma AcceptShown(t: State, choice: Choice)
    requires Inv(t) && AllSent(t) && t.pc == AtAccept && t.now == Choice(choice.readable, map[])
    requires t.w.backlog != [] && t.w.listenfd in choice.readable
    ensures t.w.Valid() && Enabled(t, AcceptNext)
    ensures var u := Step(t, AcceptNext);
            && u.w == Admitted(t.w, choice) && AllSent(u)
            && (if choice.readable == {t.w.listenfd} then u.pc == AtSelect
                else u.pc == AtRead && u.Todo() == choice.readable - {t.w.listenfd})
  {
    hide Coupled, World.Valid;
    assert choice.readable - {t.w.listenfd} == {} <==> choice.readable == {t.w.listenfd};
  }

  /* ----- all rounds ----- */

  lemma {:induction false} EveryRound(s0: State, run0: seq<Action>, choices: seq<Choice>) returns (run: seq<Action>)
    requires IsRun(Enabled, Step, s0, run0)
    requires var s := End(Enabled, Step, s0, run0);
             && Inv(s) && AllSent(s) && s.pc == AtSelect && s.w.Valid() && PossibleRun(s.w, choices)
             && NoneFails(choices, s.w.listenfd)
    ensures IsRun(Enabled, Step, s0, run)
    ensures var s, t := End(Enabled, Step, s0, run0), End(Enabled, Step, s0, run);
            t.pc == AtSelect && t.w == Rounds(s.w, choices)
    decreases |choices|
  {
    run := run0;
    if choices != [] {
      hide IsRun, End, Inv, Enabled, Step, AllSent, World.Valid, Serve, Admitted;
      run := OneRound(s0, run0, choices[0]);
      assert NoneFails(choices[1..], End(Enabled, Step, s0, run0).w.listenfd);
      run := EveryRound(s0, run, choices[1..]);
    }
  }

  lemma OneRound(s0: State, run0: seq<Action>, choice: Choice) returns (run: seq<Action>)
    requires IsRun(Enabled, Step, s0, run0)
    requires var s := End(Enabled, Step, s0, run0);
             && Inv(s) && AllSent(s) && s.pc == AtSelect && s.w.Valid() && Possible(s.w, choice)
             && !choice.Fails(s.w.listenfd)
    ensures IsRun(Enabled, Step, s0, run)
    ensures var s, t := End(Enabled, Step, s0, run0), End(Enabled, Step, s0, run);
            Inv(t) && AllSent(t) && t.pc == AtSelect && t.w == Round(s.w, choice)
  {
    hide IsRun, End, Inv, Enabled, Step, AllSent, World.Valid, Serve, Admitted;
    var s := End(Enabled, Step, s0, run0);
    run := BeginRound(s0, run0, choice);
    if choice.readable == {s.w.listenfd} {
      NoneReady(Admitted(s.w, choice), choice.readings);
      assert choice.readable - {s.w.listenfd} == {};
    } else {
      run := ServeRest(s0, run, choice.readings);
    }
  }

  // Every schedule of the server without failing reads is met in a run with clients: they send all
  // they have, and the server goes through the rounds.
  lemma EverySchedule(listenfd: nat, inputs: seq<seq<byte>>, choices: seq<Choice>) returns (run: seq<Action>)
    requires PossibleRun(InitialWorld(listenfd, inputs), choices) && NoneFails(choices, listenfd)
    ensures IsRun(Enabled, Step, Start(listenfd, inputs), run)
    ensures var t := End(Enabled, Step, Start(listenfd, inputs), run);
            t.pc == AtSelect && t.w == Rounds(InitialWorld(listenfd, inputs), choices)
  {
    hide IsRun, End, Inv;
    run := SendAll(listenfd, inputs, |inputs|);
    StartOk(listenfd, inputs);
    RunKeeps(Start(listenfd, inputs), run);
    run := EveryRound(Start(listenfd, inputs), run, choices);
  }

  // So what the server can come to with clients is exactly what it can come to without failing reads.
  lemma SameWorlds(listenfd: nat, inputs: seq<seq<byte>>, w: World)
    requires listenfd + |inputs| < FD_SETSIZE
    ensures (exists run :: IsRun(Enabled, Step, Start(listenfd, inputs), run)
                           && End(Enabled, Step, Start(listenfd, inputs), run).pc == AtSelect
                           && End(Enabled, Step, Start(listenfd, inputs), run).w == w)
            <==> (exists choices :: PossibleRun(InitialWorld(listenfd, inputs), choices)
                                    && NoneFails(choices, listenfd)
                                    && Rounds(InitialWorld(listenfd, inputs), choices) == w)
  {
    if run :| IsRun(Enabled, Step, Start(listenfd, inputs), run)
              && End(Enabled, Step, Start(listenfd, inputs), run).pc == AtSelect
              && End(Enabled, Step, Start(listenfd, inputs), run).w == w
    {
      var choices := PastOf(listenfd, inputs, run);
    }
    if choices :| PossibleRun(InitialWorld(listenfd, inputs), choices) && NoneFails(choices, listenfd)
                  && Rounds(InitialWorld(listenfd, inputs), choices) == w
    {
      var run := EverySchedule(listenfd, inputs, choices);
    }
  }

  lemma PastOf(listenfd: nat, inputs: seq<seq<byte>>, run: seq<Action>) returns (choices: seq<Choice>)
    requires listenfd + |inputs| < FD_SETSIZE && IsRun(Enabled, Step, Start(listenfd, inputs), run)
    requires End(Enabled, Step, Start(listenfd, inputs), run).pc == AtSelect
    ensures PossibleRun(InitialWorld(listenfd, inputs), choices) && NoneFails(choices, listenfd)
    ensures Rounds(InitialWorld(listenfd, inputs), choices) == End(Enabled, Step, Start(listenfd, inputs), run).w
  {
    StartOk(listenfd, inputs);
    var start := InitialWorld(listenfd, inputs);
    assert FleetTrace.Traced(start, Start(listenfd, inputs));
    FleetTrace.RunTraced(start, Start(listenfd, inputs), run);
    choices := End(Enabled, Step, Start(listenfd, inputs), run).past;
  }
}
