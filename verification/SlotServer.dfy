/** The select server that keeps its clients in a slot table (07/server.c, main). */
module SlotServer {
  import opened Bytes
  import opened Sockets
  import opened Runs

  // What the slot table must hold: slot i has descriptor listenfd + 1 + i whenever that
  // descriptor is open, and -1 otherwise.
  ghost function Slots(listenfd: nat, open: set<nat>): (s: seq<int>)
    ensures |s| == FD_SETSIZE
  {
    seq(FD_SETSIZE, i requires 0 <= i < FD_SETSIZE =>
          if listenfd + 1 + i in open then listenfd + 1 + i else -1)
  }

  lemma SlotAt(listenfd: nat, open: set<nat>, i: nat)
    requires i < FD_SETSIZE
    ensures Slots(listenfd, open)[i] == if listenfd + 1 + i in open then listenfd + 1 + i else -1
  {
  }

  lemma SlotAdded(listenfd: nat, open: set<nat>, fd: nat)
    requires listenfd < fd < FD_SETSIZE
    ensures Slots(listenfd, open + {fd}) == Slots(listenfd, open)[fd - listenfd - 1 := fd]
  {
  }

  lemma SlotCleared(listenfd: nat, open: set<nat>, fd: nat)
    requires listenfd < fd < FD_SETSIZE
    ensures Slots(listenfd, open - {fd}) == Slots(listenfd, open)[fd - listenfd - 1 := -1]
  {
  }

  /* ----- the search for a slot, whatever descriptors the kernel hands out ----- */

  // client[] as it stands, beside the one descriptor that never has a slot.
  datatype Table = Table(client: seq<int>, listenfd: nat) {
    // The slots hold distinct descriptors below the size of the table.
    ghost predicate Ok() {
      && listenfd < |client|
      && (forall i | 0 <= i < |client| :: -1 <= client[i] < |client| && client[i] != listenfd)
      && (forall i, j | 0 <= i < j < |client| :: client[i] == client[j] ==> client[i] == -1)
    }
  }

  // accept returns any descriptor that is not open, or a client in some slot is closed.
  datatype Change = Opened(fd: nat) | Closed(i: nat)

  predicate Allowed(t: Table, c: Change) {
    match c
    case Opened(fd) => fd < |t.client| && fd != t.listenfd && fd !in t.client
    case Closed(i) => i < |t.client| && t.client[i] >= 0
  }

  // Where a search without a bound would stop.
  function FirstFree(client: seq<int>): (i: nat)
    ensures i <= |client| && (i < |client| ==> client[i] == -1)
    ensures forall k | 0 <= k < i :: client[k] != -1
  {
    if client == [] || client[0] == -1 then 0 else 1 + FirstFree(client[1..])
  }

  function Changed(t: Table, c: Change): Table
    requires Allowed(t, c)
  {
    match c
    case Opened(fd) =>
      if FirstFree(t.client) < |t.client| then t.(client := t.client[FirstFree(t.client) := fd]) else t
    case Closed(i) => t.(client := t.client[i := -1])
  }

  // The new descriptor and listenfd are two that the slots cannot hold, so two slots are free of
  // descriptors, and one of them is not the last.
  lemma Pigeonhole(t: Table, connfd: nat)
    requires t.Ok() && Allowed(t, Opened(connfd))
    ensures FirstFree(t.client) <= |t.client| - 2
  {
    hide Interval;
    var size := |t.client|;
    if FirstFree(t.client) > size - 2 {
      var taken := Members(t.client[..size - 1]);
      SubsetSize(taken + {t.listenfd as int, connfd as int}, Interval(0, size));
      assert false;
    }
  }

  // Every history of accepts and closes keeps the slots distinct and in range.
  lemma TableKept(t: Table, history: seq<Change>)
    requires t.Ok() && IsRun(Allowed, Changed, t, history)
    ensures var t' := End(Allowed, Changed, t, history); t'.Ok() && |t'.client| == |t.client|
  {
    Always(Allowed, Changed, (t': Table) => t'.Ok() && |t'.client| == |t.client|, t, history);
  }

  // The table with which the server starts.
  function EmptyTable(listenfd: nat): Table {
    Table(seq(FD_SETSIZE, _ => -1), listenfd)
  }

  // After every history of accepts and closes, with any allocator of descriptors below FD_SETSIZE,
  // the next search for a slot stops at the latest in the last place but one.
  lemma SearchStops(listenfd: nat, history: seq<Change>, connfd: nat)
    requires listenfd < FD_SETSIZE && IsRun(Allowed, Changed, EmptyTable(listenfd), history)
    requires Allowed(End(Allowed, Changed, EmptyTable(listenfd), history), Opened(connfd))
    ensures FirstFree(End(Allowed, Changed, EmptyTable(listenfd), history).client) <= FD_SETSIZE - 2
  {
    TableKept(EmptyTable(listenfd), history);
    Pigeonhole(End(Allowed, Changed, EmptyTable(listenfd), history), connfd);
  }

  // With lowest-free allocation the first free slot is the one of the new descriptor.
  lemma SlotsAreTable(w: World)
    requires w.Valid() && NextFd(w) < FD_SETSIZE
    requires w.listenfd + w.peak < FD_SETSIZE
    ensures var t := Table(Slots(w.listenfd, w.table.Keys), w.listenfd);
            t.Ok() && Allowed(t, Opened(NextFd(w))) && FirstFree(t.client) == NextFd(w) - w.listenfd - 1
  {
    var client := Slots(w.listenfd, w.table.Keys);
    var slot := NextFd(w) - w.listenfd - 1;
    assert client[slot] == -1;
    assert forall i | 0 <= i < slot :: w.listenfd + 1 + i in w.table.Keys && client[i] != -1;
  }

  lemma {:induction false} Members(s: seq<int>) returns (m: set<int>)
    requires forall i, j | 0 <= i < j < |s| :: s[i] != s[j]
    ensures |m| == |s|
    ensures forall i | 0 <= i < |s| :: s[i] in m
    ensures forall x | x in m :: exists i :: 0 <= i < |s| && s[i] == x
  {
    m := {};
    if s != [] {
      var k := |s| - 1;
      var init := Members(s[..k]);
      if s[k] in init {
        var i :| 0 <= i < k && s[..k][i] == s[k];
        assert false;
      }
      m := init + {s[k]};
      forall x | x in m ensures exists i :: 0 <= i < |s| && s[i] == x {
        if x in init {
          var i :| 0 <= i < k && s[..k][i] == x;
          assert s[i] == x;
        } else {
          assert s[k] == x;
        }
      }
      forall i | 0 <= i < |s| ensures s[i] in m {
        if i < k {
          assert s[..k][i] in init;
        }
      }
    }
  }

  class Server {
    const kernel: Kernel
    const listenfd: nat
    const client: array<int>
    var allset: set<nat>
    var maxfd: int
    var maxi: int
    var complained: bool   // "too many clients" has been printed

    // The four structures agree with each other and with the kernel.
    ghost predicate Valid()
      reads this, kernel, client
    {
      var w := kernel.world;
      && w.Valid() && w.listenfd == listenfd
      && client[..] == Slots(listenfd, w.table.Keys)
      && allset == {listenfd} + w.table.Keys
      && -1 <= maxi && maxi + 1 == w.peak
      && maxfd == listenfd + 1 + maxi < FD_SETSIZE
      && !complained
    }

    // Lines 148-154.
    constructor (k: Kernel, fd: nat)
      requires k.world.Valid() && k.world.listenfd == fd < FD_SETSIZE
      requires k.world.table == map[] && k.world.peak == 0
      ensures Valid() && fresh(client) && kernel == k && listenfd == fd
    {
      kernel := k;
      listenfd := fd;
      maxfd := fd;
      maxi := -1;
      client := new int[FD_SETSIZE];
      allset := {fd};
      complained := false;
      new;
      for i := 0 to FD_SETSIZE
        modifies client
        invariant forall j | 0 <= j < i :: client[j] == -1
      {
        client[i] := -1;
      }
    }

    // Lines 168-172: the first free slot takes the connection, whichever descriptor it has.  The
    // search keeps the code's bound i <= FD_SETSIZE; it always stops at FD_SETSIZE - 2 at the latest.
    method FillSlot(connfd: nat) returns (i: nat)
      requires client.Length == FD_SETSIZE && Table(client[..], listenfd).Ok()
      requires Allowed(Table(client[..], listenfd), Opened(connfd))
      modifies client
      ensures i == FirstFree(old(client[..])) <= FD_SETSIZE - 2
      ensures client[..] == old(client[..])[i := connfd]
    {
      Pigeonhole(Table(client[..], listenfd), connfd);
      i := 0;
      while i <= FD_SETSIZE
        invariant 0 <= i <= FirstFree(old(client[..]))
        invariant client[..] == old(client[..])
      {
        assert client[i] == client[..][i];
        if client[i] == -1 {
          client[i] := connfd;
          break;
        }
        i := i + 1;
      }
    }

    // Lines 173-181: record connection connfd, which is in slot i.
    method NoteConnection(connfd: nat, i: nat)
      modifies this`allset, this`maxfd, this`maxi, this`complained
      ensures complained == (old(complained) || i == FD_SETSIZE - 1)
      ensures allset == old(allset) + {connfd}
      ensures maxfd == Max(old(maxfd), connfd) && maxi == Max(old(maxi), i)
    {
      if i == FD_SETSIZE - 1 {
        complained := true;
      }
      allset := allset + {connfd};
      if connfd > maxfd {
        maxfd := connfd;
      }
      if i > maxi {
        maxi := i;
      }
    }

    // Lines 166-181: accept a connection and record it in all the structures.
    method TakeConnection()
      requires Valid() && kernel.world.backlog != [] && NextFd(kernel.world) < FD_SETSIZE
      modifies this`allset, this`maxfd, this`maxi, this`complained, client, kernel`world
      ensures Valid() && kernel.world == Accepted(old(kernel.world))
    {
      hide World.Valid, Accepted, NextFd, Slots;
      ghost var before := kernel.world;
      NextFdBound(before);
      SlotsAreTable(before);
      var connfd := kernel.Accept();
      var i := FillSlot(connfd);
      SlotAdded(listenfd, before.table.Keys, connfd);
      Insert({listenfd}, before.table.Keys, connfd);
      NoteConnection(connfd, i);
    }

    // Lines 190-201: one ready client in slot i.
    method ServeSlot(i: nat)
      requires Valid() && i < FD_SETSIZE && client[i] >= 0
      requires listenfd + 1 + i in kernel.now.readings
      modifies this`allset, client, kernel`world
      ensures Valid()
      ensures var fd: nat := listenfd + 1 + i;
              kernel.world == Serve(old(kernel.world), fd, kernel.now.readings[fd])
    {
      hide World.Valid, Answer, AfterRead, AfterClose, AfterWrite, Slots;
      SlotAt(listenfd, kernel.world.table.Keys, i);
      ghost var before := kernel.world;
      OpenBound(before, listenfd + 1 + i);
      var sockfd: nat := client[i];
      var n, buf := kernel.Read(sockfd);
      if n <= 0 {
        kernel.Close(sockfd);
        allset := allset - {sockfd};
        client[i] := -1;
        SlotCleared(listenfd, before.table.Keys, sockfd);
      } else {
        kernel.Write(sockfd, buf);
      }
    }

    // Lines 186-204: scan the slots, stopping as soon as nready says nothing is left.
    method ServeReady(rset: set<nat>, count: int, ghost clients: set<nat>)
      requires Valid() && clients == rset - {listenfd} && count == |clients| > 0
      requires clients <= kernel.world.table.Keys && clients <= kernel.now.readings.Keys
      requires forall fd | fd in rset :: fd == listenfd || fd in clients
      modifies this`allset, client, kernel`world
      ensures Valid() && kernel.world == ServeAll(old(kernel.world), clients, kernel.now.readings)
    {
      hide World.Valid, Serve, ServeAll, From, Slots;
      AllClients(kernel.world, clients);
      var i, nready := 0, count;
      while i <= maxi
        invariant 0 <= i <= maxi + 1
        invariant Valid()
        invariant nready == |From(clients, listenfd + 1 + i)| > 0
        invariant From(clients, listenfd + 1 + i) <= kernel.world.table.Keys
        invariant From(clients, listenfd + 1 + i) <= kernel.now.readings.Keys
        invariant ServeAll(kernel.world, From(clients, listenfd + 1 + i), kernel.now.readings)
               == ServeAll(old(kernel.world), clients, kernel.now.readings)
      {
        ghost var fd := listenfd + 1 + i;
        FromStep(clients, fd);
        SlotAt(listenfd, kernel.world.table.Keys, i);
        assert client[i] == client[..][i];
        var sockfd := client[i];
        if sockfd >= 0 {
          if sockfd in rset {
            ScanServes(kernel.world, clients, fd, kernel.now.readings);
            ServeSlot(i);
            nready := nready - 1;
            if nready <= 0 {
              ScanEnds(kernel.world, clients, fd + 1, kernel.now.readings);
              break;
            }
          }
        }
        i := i + 1;
      }
      if i > maxi {
        NoneAbove(kernel.world, clients, listenfd + 1 + i);
      }
    }

    // Lines 159-204: one round of the loop.
    method Round(choice: Choice)
      requires Valid() && Possible(kernel.world, choice)
      modifies this`allset, this`maxfd, this`maxi, this`complained, client, kernel
      ensures Valid() && kernel.world == Sockets.Round(old(kernel.world), choice)
    {
      hide World.Valid, Serve, ServeAll, Accepted, NextFd, Slots;
      AllReported(kernel.world, choice, maxfd + 1, allset);
      WithoutMember(choice.readable, listenfd);
      var rset, nready := kernel.Select(maxfd + 1, allset, choice);
      ghost var clients := rset - {listenfd};
      if listenfd in rset {
        TakeConnection();
        nready := nready - 1;
        if nready <= 0 {
          NoneReady(kernel.world, choice.readings);
          return;
        }
      }
      ServeReady(rset, nready, clients);
    }

    // Any number of rounds of the endless loop.
    method Run(choices: seq<Choice>)
      requires Valid() && PossibleRun(kernel.world, choices)
      modifies this`allset, this`maxfd, this`maxi, this`complained, client, kernel
      ensures Valid() && kernel.world == Rounds(old(kernel.world), choices)
    {
      for r := 0 to |choices|
        invariant Valid() && PossibleRun(kernel.world, choices[r..])
        invariant Rounds(kernel.world, choices[r..]) == Rounds(old(kernel.world), choices)
      {
        Round(choices[r]);
        assert choices[r..][1..] == choices[r + 1..];
      }
    }
  }

  // What Valid says of the four structures, spelled out: slot i can only ever hold the i-th
  // descriptor after listenfd, so slot order is descriptor order and no two slots agree; allset
  // is the listening socket and the occupied slots; maxfd and maxi bound both and name the
  // same place; and maxi + 1 is the largest number of simultaneous connections so far.
  lemma StructuresAgree(s: Server)
    requires s.Valid()
    ensures s.client.Length == FD_SETSIZE
    ensures forall i | 0 <= i < FD_SETSIZE :: s.client[i] == -1 || s.client[i] == s.listenfd + 1 + i
    ensures forall i | 0 <= i < FD_SETSIZE :: s.client[i] >= 0 ==> i <= s.maxi && s.client[i] <= s.maxfd
    ensures forall fd: nat :: fd in s.allset <==> fd == s.listenfd || fd in s.client[..]
    ensures s.maxfd == s.listenfd + 1 + s.maxi && s.maxi + 1 == s.kernel.world.peak
  {
    var w := s.kernel.world;
    forall i | 0 <= i < FD_SETSIZE
      ensures s.client[i] == if s.listenfd + 1 + i in w.table then s.listenfd + 1 + i else -1
    {
      SlotAt(s.listenfd, w.table.Keys, i);
      assert s.client[i] == s.client[..][i];
    }
    forall fd: nat ensures fd in w.table <==> fd in s.client[..] {
      if fd in w.table {
        OpenBound(w, fd);
        assert s.client[..][fd - s.listenfd - 1] == fd;
      }
    }
  }
}
