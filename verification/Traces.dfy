/**
 What the record of the calls alone tells about the connections of a select server, and that it
 is the truth: replaying accept, read, write and close gives back every connection.
 */
module Traces {
  import opened Bytes
  import opened Sockets

  /* ----- each read is answered ----- */

  // A read with data is followed at once by a write of just that data to the same descriptor, any
  // other read by a close of it; and nothing else is ever written or closed.
  ghost predicate AnsweredAt(t: seq<Event>, k: nat)
    requires k < |t|
  {
    match t[k]
    case Accept(_) => true
    case Read(fd, n, data) =>
      && k + 1 < |t| && t[k + 1] == (if n > 0 then Write(fd, data) else Close(fd))
      && |data| == Max(n, 0)
    case _ => k > 0 && t[k - 1].Read?
  }

  ghost predicate Answered(t: seq<Event>) {
    forall k | 0 <= k < |t| :: AnsweredAt(t, k)
  }

  lemma AnsweredAccept(t: seq<Event>, fd: nat)
    requires Answered(t)
    ensures Answered(t + [Accept(fd)])
  {
    var u := t + [Accept(fd)];
    forall k | 0 <= k < |u| ensures AnsweredAt(u, k) {
      assert k < |t| ==> AnsweredAt(t, k);
    }
  }

  lemma AnsweredServe(t: seq<Event>, fd: nat, n: int, data: seq<byte>)
    requires Answered(t) && |data| == Max(n, 0)
    ensures Answered(t + [Read(fd, n, data)] + [if n > 0 then Write(fd, data) else Close(fd)])
  {
    var u := t + [Read(fd, n, data)] + [if n > 0 then Write(fd, data) else Close(fd)];
    forall k | 0 <= k < |u| ensures AnsweredAt(u, k) {
      assert k < |t| ==> AnsweredAt(t, k);
    }
  }

  /* ----- the replay ----- */

  // What the calls so far tell of one connection.
  datatype Told = Told(fd: nat, got: seq<byte>, put: seq<byte>, closed: bool, failed: bool)

  // The connection that descriptor fd stands for; |told| if it stands for none.
  function Current(told: seq<Told>, fd: nat): (i: nat)
    ensures i <= |told|
  {
    if told == [] || (told[0].fd == fd && !told[0].closed) then 0 else 1 + Current(told[1..], fd)
  }

  function Hear(c: Told, e: Event): Told {
    match e
    case Accept(_) => c
    case Read(_, n, data) => c.(got := c.got + data, failed := c.failed || n < 0)
    case Write(_, data) => c.(put := c.put + data)
    case Close(_) => c.(closed := true)
  }

  function Retold(told: seq<Told>, e: Event): seq<Told> {
    if e.Accept? then told + [Told(e.fd, [], [], false, false)]
    else
      var i := Current(told, e.fd);
      if i < |told| then told[i := Hear(told[i], e)] else told
  }

  function Replay(t: seq<Event>): seq<Told> {
    if t == [] then [] else Retold(Replay(t[..|t| - 1]), t[|t| - 1])
  }

  lemma ReplayAppend(t: seq<Event>, e: Event)
    ensures Replay(t + [e]) == Retold(Replay(t), e)
  {
    assert (t + [e])[..|t|] == t;
  }

  // The connections as they are.
  ghost function Seen(conns: seq<Conn>): (told: seq<Told>)
    requires forall c | 0 <= c < |conns| :: conns[c].taken <= |conns[c].input|
    ensures |told| == |conns|
  {
    seq(|conns|, i requires 0 <= i < |conns| =>
          var c := conns[i]; Told(c.fd, c.input[..c.taken], c.echoed, !c.open, c.failed))
  }

  ghost predicate Truthful(w: World)
    requires w.Valid()
  {
    Replay(w.trace) == Seen(w.conns)
  }

  lemma {:induction false} CurrentUnique(told: seq<Told>, i: nat, fd: nat)
    requires i < |told| && told[i].fd == fd && !told[i].closed
    requires forall j | 0 <= j < i :: told[j].fd != fd || told[j].closed
    ensures Current(told, fd) == i
  {
    if i > 0 {
      CurrentUnique(told[1..], i - 1, fd);
    }
  }

  // A descriptor stands for the connection the kernel's table has for it.
  lemma CurrentIs(w: World, fd: nat)
    requires w.Valid() && fd in w.table
    ensures w.table[fd] < |w.conns| && Current(Seen(w.conns), fd) == w.table[fd]
  {
    CurrentUnique(Seen(w.conns), w.table[fd], fd);
  }

  lemma AcceptTruthful(w: World)
    requires w.Valid() && w.backlog != [] && Truthful(w)
    ensures Truthful(Accepted(w))
  {
    ReplayAppend(w.trace, Accept(NextFd(w)));
    assert Seen(Accepted(w).conns) == Seen(w.conns) + [Told(NextFd(w), [], [], false, false)];
  }

  lemma ReadIsNext(c: Conn, n: int, data: seq<byte>)
    requires c.taken + Max(n, 0) <= |c.input| && data == c.input[c.taken..c.taken + Max(n, 0)]
    ensures c.input[..c.taken] + data == c.input[..c.taken + Max(n, 0)]
  {
  }

  lemma ReadTruthful(w: World, fd: nat, r: Reading)
    requires w.Valid() && fd in w.table && Truthful(w)
    ensures Truthful(AfterRead(w, fd, r))
  {
    var (n, data) := Answer(w, fd, r);
    var c := w.conns[w.table[fd]];
    CurrentIs(w, fd);
    ReplayAppend(w.trace, Read(fd, n, data));
    ReadIsNext(c, n, data);
    assert Seen(AfterRead(w, fd, r).conns)
        == Seen(w.conns)[w.table[fd] := Hear(Seen(w.conns)[w.table[fd]], Read(fd, n, data))];
  }

  lemma WriteTruthful(w: World, fd: nat, data: seq<byte>)
    requires w.Valid() && fd in w.table && Truthful(w)
    ensures Truthful(AfterWrite(w, fd, data))
  {
    CurrentIs(w, fd);
    ReplayAppend(w.trace, Write(fd, data));
    assert Seen(AfterWrite(w, fd, data).conns)
        == Seen(w.conns)[w.table[fd] := Hear(Seen(w.conns)[w.table[fd]], Write(fd, data))];
  }

  lemma CloseTruthful(w: World, fd: nat)
    requires w.Valid() && fd in w.table && Truthful(w)
    ensures Truthful(AfterClose(w, fd))
  {
    CurrentIs(w, fd);
    ReplayAppend(w.trace, Close(fd));
    assert Seen(AfterClose(w, fd).conns)
        == Seen(w.conns)[w.table[fd] := Hear(Seen(w.conns)[w.table[fd]], Close(fd))];
  }

  lemma ServeTold(w: World, fd: nat, r: Reading)
    requires w.Valid() && fd in w.table && Truthful(w) && Answered(w.trace)
    ensures Truthful(Serve(w, fd, r)) && Answered(Serve(w, fd, r).trace)
  {
    hide World.Valid, Truthful, Answered, Answer;
    var (n, data) := Answer(w, fd, r);
    ReadTruthful(w, fd, r);
    AnsweredServe(w.trace, fd, n, data);
    if n > 0 {
      WriteTruthful(AfterRead(w, fd, r), fd, data);
    } else {
      CloseTruthful(AfterRead(w, fd, r), fd);
    }
  }

  lemma {:induction false} ServeAllTold(w: World, s: set<nat>, readings: map<nat, Reading>)
    requires w.Valid() && s <= w.table.Keys && s <= readings.Keys && Truthful(w) && Answered(w.trace)
    ensures Truthful(ServeAll(w, s, readings)) && Answered(ServeAll(w, s, readings).trace)
    decreases s
  {
    hide World.Valid, Truthful, Answered, Serve;
    if s != {} {
      var m := Least(s);
      ServeTold(w, m, readings[m]);
      ServeAllTold(Serve(w, m, readings[m]), s - {m}, readings);
    }
  }

  lemma AdmittedTold(w: World, choice: Choice)
    requires w.Valid() && Possible(w, choice) && Truthful(w) && Answered(w.trace)
    ensures Truthful(Admitted(w, choice)) && Answered(Admitted(w, choice).trace)
  {
    hide World.Valid, Truthful, Answered, NextFd;
    if w.listenfd in choice.readable {
      AcceptTruthful(w);
      AnsweredAccept(w.trace, NextFd(w));
    }
  }

  // The calls of every run tell the truth: the c-th accept, and the reads, writes and close of its
  // descriptor until then, are what has happened on the c-th connection.
  lemma {:induction false} RunTold(w: World, choices: seq<Choice>)
    requires w.Valid() && PossibleRun(w, choices) && Truthful(w) && Answered(w.trace)
    ensures Truthful(Rounds(w, choices)) && Answered(Rounds(w, choices).trace)
    decreases |choices|
  {
    hide World.Valid, Truthful, Answered;
    if choices != [] {
      var choice := choices[0];
      AdmittedTold(w, choice);
      ServeAllTold(Admitted(w, choice), choice.readable - {w.listenfd}, choice.readings);
      RunTold(Round(w, choice), choices[1..]);
    }
  }

  lemma RunFromStartTold(listenfd: nat, backlog: seq<seq<byte>>, choices: seq<Choice>)
    requires PossibleRun(InitialWorld(listenfd, backlog), choices)
    ensures var end := Rounds(InitialWorld(listenfd, backlog), choices);
            Replay(end.trace) == Seen(end.conns) && Answered(end.trace)
  {
    RunTold(InitialWorld(listenfd, backlog), choices);
  }

  /* ----- which connections fail ----- */

  // The kernel answers a read of connection c with an error in this round.
  ghost predicate RoundFails(w: World, choice: Choice, c: nat)
    requires w.Valid() && Possible(w, choice)
  {
    exists fd :: fd in choice.readable - {w.listenfd} && Admitted(w, choice).table[fd] == c
                 && choice.readings[fd].Failure?
  }

  ghost predicate RunFails(w: World, choices: seq<Choice>, c: nat)
    requires w.Valid() && PossibleRun(w, choices)
    decreases |choices|
  {
    choices != [] && (RoundFails(w, choices[0], c) || RunFails(Round(w, choices[0]), choices[1..], c))
  }

  ghost predicate HasFailed(w: World, c: nat) {
    c < |w.conns| && w.conns[c].failed
  }

  lemma ServeFails(w: World, fd: nat, r: Reading, c: nat)
    requires w.Valid() && fd in w.table
    ensures HasFailed(Serve(w, fd, r), c) <==> HasFailed(w, c) || (w.table[fd] == c && r.Failure?)
    ensures forall x | x in Serve(w, fd, r).table :: x in w.table && Serve(w, fd, r).table[x] == w.table[x]
  {
  }

  lemma {:induction false} ServeAllFails(w: World, s: set<nat>, readings: map<nat, Reading>, c: nat)
    requires w.Valid() && s <= w.table.Keys && s <= readings.Keys
    ensures HasFailed(ServeAll(w, s, readings), c)
            <==> HasFailed(w, c) || exists fd :: fd in s && w.table[fd] == c && readings[fd].Failure?
    decreases s
  {
    hide World.Valid, Serve, HasFailed;
    if s != {} {
      var m := Least(s);
      ServeFails(w, m, readings[m], c);
      ServeAllFails(Serve(w, m, readings[m]), s - {m}, readings, c);
    }
  }

  // A connection counts as failed if and only if the kernel has answered one of its reads with an
  // error; reading the end of its input is no failure.
  lemma {:induction false} FailedExactly(w: World, choices: seq<Choice>, c: nat)
    requires w.Valid() && PossibleRun(w, choices)
    ensures HasFailed(Rounds(w, choices), c) <==> HasFailed(w, c) || RunFails(w, choices, c)
    decreases |choices|
  {
    hide World.Valid;
    if choices != [] {
      var choice := choices[0];
      assert HasFailed(Admitted(w, choice), c) <==> HasFailed(w, c);
      ServeAllFails(Admitted(w, choice), choice.readable - {w.listenfd}, choice.readings, c);
      FailedExactly(Round(w, choice), choices[1..], c);
    }
  }

  lemma {:induction false} NoneHasFailed(w: World, choices: seq<Choice>, c: nat)
    requires w.Valid() && PossibleRun(w, choices) && NoneFails(choices, w.listenfd)
    ensures !RunFails(w, choices, c)
    decreases |choices|
  {
    hide World.Valid;
    if choices != [] {
      assert !choices[0].Fails(w.listenfd);
      NoneHasFailed(Round(w, choices[0]), choices[1..], c);
    }
  }
}
