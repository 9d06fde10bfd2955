# Verified models of the event-loop servers and clients

This project models the programs of the repository that hold real state machines and proves what
their loops keep, over every run and against an adversarial kernel. `dafny verify dfyconfig.toml`
checks all of it.

**The select servers** (`Sockets`, `Traces`, `SlotServer`, `ScanServer`, `ScanBuffer`,
`SelectTheorems`). The main server of 07 keeps its clients in a slot table `client[]` beside a descriptor set, two
high-water marks and a countdown that ends scans early; the server of 06 scans every descriptor
number. Both are classes
over a kernel that decides which descriptors are readable, how long each read is and which reads
fail, and that allocates the lowest free descriptor (section 2.14 of POSIX.1-2017, System
Interfaces). Both are proved against one reference in which a round serves the set of ready
clients in ascending order, and so against each other. The reference keeps every connection's
input and echo apart, however descriptors are reused, and drains; and the record of its calls, replayed
without the kernel, tells exactly what has become of every connection.

**The relay clients** (`EchoLink`, `Relay`, `RelayClient`, `ForkRelay`, `ForkRelayClient`,
`NonBlocking`, `NonBlockingClient`). Each client copies stdin to the socket and the socket to the
output, and half-closes at the end (section 3.6 of RFC 9293). Client, two FIFO channels and one
connection of the echo server are a step relation with one step per system call, so a run is one
interleaving; safety, a strictly decreasing measure and the absence of deadlock are proved of it.
Beside it stands the client's own loop, running on a kernel object that lets the server move
before every call; the loop records its steps, and its contract says that they are a run. That the
two multiplexed servers and the forking server really are this echo server, connection by
connection and at whatever point of its work the client is, is proved in
`SelectTheorems.ServeIsLinkStep` and `ForkServer.StepIsLinkStep`.

**Clients and servers together** (`Clients`, `Fleet`, `FleetTrace`,
`FleetSchedules`, `ForkFleet`). Any number of select
clients run against the multiplexed server, or against the forking server with its parent, handler
and children; every system call of every process is a step. Every run ends, and ends with each
client's output equal to its own stdin; the multiplexed server's part of every run is what the
slot-table server does, in exactly the schedules it can meet without failing reads; and the forking server leaves no child that has not been waited for.

**The forking server** (`ForkServer`, `ForkServerProgram`, `ForkServerChild`). A parent that accepts,
forks and closes, a SIGCHLD handler that may interrupt it anywhere, children and clients; signals do not
queue and descriptors are reference-counted across fork.

**The netlink walk** (`Netlink`, `NetlinkWalk`, `NetlinkEncoder`, `NetlinkBounds`,
`NetlinkBytes`). Messages inside a buffer and attributes inside a message are length-prefixed, padded to four bytes and walked with a signed
remaining length (sections 2.2 and 3.1.1 of RFC 3549). One walk and one encoder serve both levels
and are proved inverse to each other, on arbitrary bytes and on arbitrary well-formed lists; the wire
format itself is pinned byte by byte.

`Runs` holds what the step relations share: what a run is, how runs are joined, and the induction over
an invariant and a measure.

## Where the code is completed or followed against its comments

- 16/str_cli.c does not compile as it stands, so the evident intent is modelled. Repairs: `sockfd`
  takes part in `maxfdp1` (line 52); the test for room before watching the socket is on `fromiptr`
  (line 61); `else if(n == 0)` belongs to the outer `if` (lines 74-91 and 94-107); stdout is fed from
  `from` (lines 110-111); resetting the `to` pointers and the late shutdown belong to the empty `if`
  at line 140 and not to lines 124-125. `MAXLINE` is not defined in the file; it is any positive size.
- 07/server.c:174 would report "too many clients" one slot early, and line 168 searches one slot too
  far. The bounds are kept as they are; neither is ever reached.
- 16/str_cli.c returns without flushing `from`, so its output need not be stdin. What it can have
  printed is characterised exactly (`NonBlocking.ReturnOutputs`): stdin is certain to be printed in
  full if and only if it is empty, or MAXLINE is 1, or the kernel refuses no call and MAXLINE is 2 or
  stdin is a single byte (`ReturnLoses`).
- 07/client.c `str_cli02` leaves at the end of stdin without waiting for the echo. It can have
  printed any prefix of stdin (`Relay.ExitOutputs`), so stdin is certain to be printed in full if
  and only if it is empty (`ExitLoses`).
- 18/my_route.c reads four bytes from every RTA_DST and RTA_GATEWAY, however short. A read beyond the
  attribute happens if and only if a visited new route has such an attribute with less than four
  bytes of data (`WalkMessages`, `overread`), and the printed route need not show it
  (`NetlinkBounds.OverreadHidden`). A read beyond the array can happen if and only if what was
  received fills the array to its last byte (`NetlinkBounds.InsideArray`).
- 06/server.c:81 stores to `buffer[ret]` after every read that does not return 0, so it stores outside
  the buffer if and only if a read fails or fills the buffer (`ScanServer.RunStrays`); up to that
  point the two select servers make the same calls (`SelectTheorems.SameTraces`). Without failing
  reads no schedule leads there if and only if every client sends less than 1024 bytes
  (`ScanBuffer.InsideWhenShort`).
- 07/server.c:44 stores to `buf[n]` in `str_echo`, outside the buffer if and only if a read fills it
  (`ForkServerChild.StrEcho`, `overflow`), which takes a client that sends 1024 bytes.

## Model

| member | source | states |
|---|---|---|
| Sockets.NextFdBound | 07/server.c:166-181 | under lowest-free allocation a new descriptor lies within one place of all places ever used, and takes the last only when all the others are in use |
| SlotServer.Server.constructor | 07/server.c:148-154 | the initial table, set and marks agree with a kernel that has no client |
| SlotServer.Server.FillSlot | 07/server.c:168-175 | whichever descriptor accept returned, the search with its own bound `i <= FD_SETSIZE` stops at the first free slot, at most `FD_SETSIZE - 2`, and changes only that slot |
| SlotServer.Server.TakeConnection | 07/server.c:166-181 | accepting keeps all four structures in agreement with the kernel, and "too many clients" is not printed |
| SlotServer.Server.ServeSlot | 07/server.c:190-201 | one read, then either the same bytes written back or close with the slot and the set entry cleared |
| SlotServer.Server.ServeReady | 07/server.c:186-204 | the scan that stops when `nready` runs out serves the whole set of ready clients, in descriptor order |
| SlotServer.Server.Round | 07/server.c:159-204 | a round, with its early `continue` and `break`, has exactly the effect of the reference round |
| SlotServer.Server.Run | 07/server.c:157-205 | any number of rounds has the effect of the reference run and keeps the structures in agreement |
| SlotServer.StructuresAgree | 07/server.c:148-181 | at every loop head slot i is -1 or `listenfd + 1 + i`, `allset` is `listenfd` plus the occupied slots, all are within `maxfd` and `maxi`, `maxfd == listenfd + 1 + maxi`, and `maxi + 1` is the largest number of simultaneous connections so far |
| SlotServer.Pigeonhole | 07/server.c:168-175 | while the slots hold distinct descriptors other than `listenfd` and the new one, all below the size of the table, the first free slot is at most the last but one |
| SlotServer.SearchStops | 07/server.c:150-196 | from the initial table, after every history of accepts and closes under any allocator of descriptors below FD_SETSIZE, the next search stops at `FD_SETSIZE - 2` at the latest |
| SlotServer.SlotsAreTable | 07/server.c:166-181 | with lowest-free allocation the first free slot is the one of the new descriptor, `connfd - listenfd - 1` |
| ScanServer.Server.constructor | 06/server.c:52-54 | the initial set and mark agree with a kernel that has no client |
| ScanServer.Server.TakeConnection | 06/server.c:64-68 | accepting keeps the set and the mark in agreement with the kernel |
| ScanServer.Server.ServeClient | 06/server.c:72-84 | one read, then the same bytes sent back or close with the set entry cleared; the store of line 81 misses the buffer if and only if the read fails or fills it |
| ScanServer.Server.ServeReady | 06/server.c:70-86 | the dense scan serves the whole set of ready clients, in descriptor order, unless one of their reads fails or fills the buffer, and until then makes the same calls |
| ScanServer.Server.Round | 06/server.c:58-87 | a round has exactly the effect of the reference round, and makes the calls of it up to the first read that fails or fills the buffer |
| ScanServer.Server.Run | 06/server.c:56-88 | any number of rounds has the effect of the reference run, up to the first read that fails or fills the buffer; then and only then the behaviour is undefined |
| SelectTheorems.SameTraces | 07/server.c:157-205 | given the same backlog, ready sets and read results, the calls of the scanning server of 06/server.c are this server's up to and with the first read that fails or fills the buffer, and all of them if there is none; that is exactly when 06/server.c is undefined. In the calls each read is followed by a write of just its data or by a close, and replayed they give the state of every connection |
| Traces.RunTold | 07/server.c:157-205 | over every run the recorded calls alone, replayed, give for each accept the descriptor, the bytes read, the bytes written, and whether it was closed or failed, exactly as they are; every read is answered at once by a write of its data or a close of its descriptor, and nothing else is written or closed |
| Traces.FailedExactly | 07/server.c:192-196 | a connection counts as failed if and only if one of its reads was answered with an error; the end of input is no failure |
| ScanBuffer.RunShows | 06/server.c:74-83 | that is so if and only if the reference run holds a read whose result is an error or a full buffer |
| ScanBuffer.RunInside | 06/server.c:74-83 | it is not so while no read fails and every read is short or every client sends less than a buffer |
| ScanBuffer.FullRead | 06/server.c:74-81 | for every client with at least 1024 bytes to send there is a run without failing reads in which it happens |
| ScanBuffer.InsideWhenShort | 06/server.c:56-88 | so without failing reads it is excluded for all schedules if and only if every client sends less than 1024 bytes |
| SelectTheorems.ExactService | 07/server.c:159-204 | in a round each ready client descriptor is read exactly once and no other is read, not even the one accepted in that round |
| SelectTheorems.ServeTouchesOne | 07/server.c:190-200 | serving a descriptor changes no connection but the one it stands for |
| SelectTheorems.RunFaithful | 07/server.c:166-200 | over every run and every reuse of descriptors, each connection has got back exactly the bytes read from it, in order, and all its input once it is closed unless a read of it was answered with an error (`Traces.FailedExactly`) |
| SelectTheorems.RunDemand | 07/server.c:166-200 | connections are accepted in the order of the backlog and no client's input is exchanged with another's |
| SelectTheorems.ServeIsLinkStep | 07/server.c:190-200 | on its own connection, at any point of the client's sending and receiving, serving it is a take-and-put of what has been sent, or, after the FIN with all read, a shut of the echo server the relay clients are proved against |
| Fleet.StepKeeps | 07/server.c:157-205 | with any number of str_cli clients on the server, every system call keeps each client's channels equal to the server's connection as seen from how far that client has sent and received |
| Fleet.StepWorks | 07/server.c:157-205 | and brings the whole system nearer to its end |
| Fleet.StuckMeansReturned | 07/client.c:165-202 | clients and server can all be stuck only when every client has returned |
| Fleet.TotalCorrectness | 07/client.c:165-202 | for any number of clients and any interleaving no client finds the server terminated prematurely, runs are bounded, and a run that cannot be extended has returned every client with its own stdin as output and closed every connection |
| FleetTrace.ServeAllLast | 07/server.c:186-204 | serving clients one at a time in ascending order makes up the reference round |
| FleetTrace.StepTraced | 07/server.c:157-205 | every call of the server in such a run belongs to a possible reference round |
| FleetTrace.SlotServerServes | 07/server.c:157-205 | the slot-table server, given what the kernel answered in a run with clients, makes the very calls of that run; once all clients have returned these calls tell that each connection was read and written all of its client's stdin and closed |
| FleetSchedules.EverySchedule | 07/server.c:157-205 | every choice of ready sets and read lengths the server can meet without failing reads is met in a run with clients |
| FleetSchedules.SameWorlds | 07/server.c:157-205 | so what the server comes to with clients is exactly what it comes to in the reference runs without failing reads |
| SelectTheorems.RoundWorks | 07/server.c:157-205 | pending connections plus unread bytes plus unseen ends of input fall by at least one for every ready descriptor |
| SelectTheorems.RunWorks | 07/server.c:157-205 | so a run has at most as many rounds as there was work |
| SelectTheorems.QuietMeansDone | 07/server.c:161 | select can return again if and only if work is left; with none left no descriptor is open and no connection waits |
| SelectTheorems.QuietRun | 07/server.c:157-205 | when select would block for ever, all clients have been accepted, none is open, and every client whose reads succeeded has been echoed completely |
| SelectTheorems.QuietRunComplete | 07/server.c:157-205 | and without failing reads every client has been echoed completely |
| SelectTheorems.RunToTheEnd | 07/server.c:157-205 | at that point every slot of the server is -1 and `allset` is exactly `listenfd` |
| EchoLink.ServedKeeps | 07/server.c:190-200 | no step of the server loses, reorders or invents a byte in flight, retracts readability or fails to make progress |
| EchoLink.ServerIdle | 07/server.c:190-200 | the server rests if and only if it has closed or waits for its client |
| Relay.StepKeeps | 07/client.c:165-202 | every system call of client or server keeps stdin equal to output, held pieces, bytes in flight and unread input in that order, and keeps the end-of-file discipline |
| Relay.EchoTheorem | 07/client.c:165-202 | in every interleaving and chunking "server terminated prematurely" is unreachable, because the end of the connection can be read only after the end of stdin; the output is a prefix of stdin, and on return it is stdin |
| Relay.EndOfConnection | 07/client.c:167-180 | reading the end of the connection ends the client as "terminated prematurely" if and only if stdin has not ended, and in str_cli it always has, with everything printed |
| Relay.StepWorks | 07/client.c:165-202 | a weighted count of bytes still to travel and ends of file still to come falls with every step |
| Relay.StuckMeansReturned | 07/client.c:165-202 | client and server are both stuck if and only if the client has returned |
| Relay.TotalCorrectness | 07/client.c:165-202 | every run is bounded by the length of stdin, and every run that cannot be extended has returned with output equal to stdin |
| Relay.QuietAfterFin | 07/client.c:190-201 | after the shutdown stdin is never read, the socket never written and shutdown never called again |
| Relay.ShutsDownOnce | 07/client.c:192-199 | shutdown is called exactly once if the FIN has been sent and never otherwise |
| Relay.EveryCut | 07/client.c:165-202 | for every way of cutting stdin into pieces of 1 to 1024 bytes there is a run that reads, echoes and prints it in just these pieces |
| Relay.ExitOutputs | 07/client.c:70-93 | what str_cli02 can have printed when it exits is every prefix of stdin and nothing else |
| Relay.ExitLoses | 07/client.c:87-92 | every run of str_cli02 that exits has printed all of stdin if and only if stdin is empty |
| RelayClient.StrCli | 07/client.c:153-203 | the loop, with its persistent `rset`, only makes runs of the step relation, terminates against every scheduling of the server, returns normally and has copied stdin to the output |
| RelayClient.StrCli02 | 07/client.c:62-94 | the earlier loop terminates with status 0 and a prefix of stdin, complete if and only if nothing is in flight |
| ForkRelay.StepKeeps | 16/fork_strcli.c:23-39 | every step of parent, child or server conserves stdin and keeps the reference count of the shared socket |
| ForkRelay.KillIsSafe | 16/fork_strcli.c:25-39 | whenever the child is about to send SIGTERM the parent is alive, has sent all of stdin and shut down, and the output equals stdin |
| ForkRelay.StuckMeansDone | 16/fork_strcli.c:23-40 | nothing can move if and only if the parent has been killed and the child has exited |
| ForkRelay.TotalCorrectness | 16/fork_strcli.c:23-40 | every run is bounded, and every run that cannot be extended ends with parent killed, child gone and output equal to stdin |
| ForkRelay.CloseWouldHang | 16/fork_strcli.c:36-39 | with close in place of shutdown no FIN is sent, the child never sends the signal, and every run that cannot be extended leaves both processes waiting |
| ForkRelayClient.StrCli | 16/fork_strcli.c:17-41 | run as the child it makes exactly the child's calls (pieces from the socket to stdout, kill, exit), run as the parent exactly the parent's (pieces from stdin to the socket, one shutdown, pause unless SIGTERM comes first); the process has itself written all of stdin, the parent is dead and everything has been printed, whatever the other process and the server do |
| NonBlocking.StepKeeps | 16/str_cli.c:72-141 | for short and refused calls alike the two buffers stay queues, the echo is conserved, equal pointers are at the start of their array and the end-of-file discipline holds |
| NonBlocking.BufferRefinement | 16/str_cli.c:72-141 | sent bytes followed by the `to` buffer are what was read from stdin, printed bytes followed by the `from` buffer are what was read from the socket, and at the return these are stdin |
| NonBlocking.SomethingWatched | 16/str_cli.c:59-66 | at each select the socket or stdout is watched |
| NonBlocking.ZeroMeansEnd | 16/str_cli.c:74-98 | every read has room, so a result of 0 means end of stdin, or end of the connection with stdin at its end; any other number that is there and fits may be returned |
| NonBlocking.EndOfConnection | 16/str_cli.c:98-102 | reading the end of the connection ends the client as "terminated prematurely" if and only if stdin has not ended |
| NonBlocking.FinOnce | 16/str_cli.c:80-84 | over any run shutdown is called once if the FIN was sent in it and not at all otherwise |
| NonBlocking.FinAtTheEnd | 16/str_cli.c:80-84 | and only with stdin at its end, the `to` buffer empty and all of stdin sent |
| NonBlocking.StuckMeansReturned | 16/str_cli.c:54-143 | client and server are both stuck if and only if the client has returned |
| NonBlocking.TotalCorrectness | 16/str_cli.c:54-143 | if the kernel refuses finitely often every run is bounded, and a run that cannot be extended has returned with printed plus buffered bytes equal to stdin |
| NonBlocking.ReturnOutputs | 16/str_cli.c:93-129 | the client can return having printed exactly the prefixes of stdin that leave less than MAXLINE bytes if the kernel may refuse a call, and otherwise all of stdin or a non-empty prefix that leaves less than MAXLINE - 1 bytes |
| NonBlocking.ReturnLoses | 16/str_cli.c:98-102 | so every return has printed all of stdin if and only if stdin is empty, MAXLINE is 1, or nothing is refused and MAXLINE is 2 or stdin is one byte |
| NonBlockingClient.Client.Select | 16/str_cli.c:56-70 | the sets built from the pointers are exactly the descriptors of interest |
| NonBlockingClient.Client.ReadIntoTo | 16/str_cli.c:74-90 | a read into the free end of the array in place appends to the queue it holds |
| NonBlockingClient.Client.EndOfStdin | 16/str_cli.c:80-84 | the FIN goes out at once if and only if nothing is left to send |
| NonBlockingClient.Client.FromStdin | 16/str_cli.c:72-91 | the first block of the loop is the read step, and makes the socket writable-of-interest after data |
| NonBlockingClient.Client.FromSocket | 16/str_cli.c:93-108 | the second block is the read step, and reports the end of the connection |
| NonBlockingClient.Client.ToStdout | 16/str_cli.c:110-129 | the third block passes on the oldest received bytes, resets equal pointers, and reports refusal |
| NonBlockingClient.Client.ToSocket | 16/str_cli.c:130-142 | the fourth block sends the oldest bytes, resets equal pointers and sends the late FIN |
| NonBlockingClient.Client.StrCli | 16/str_cli.c:29-144 | the loop over arrays and pointers only makes runs of the step relation, terminates, returns normally, and output followed by `from[fromo..fromi]` is stdin |
| ForkServer.StepKeeps | 07/server.c:62-119 | every step of parent, handler, children or clients keeps descriptors, zombies and connections in order |
| ForkServer.ReaperComplete | 07/server.c:62-70 | in every reachable state a zombie implies that SIGCHLD is pending or the handler will call waitpid again |
| ForkServer.DescriptorsCounted | 07/server.c:91-120 | no child holds another client's connection; a connection's count is zero, and it is closed, exactly when its child is gone and the parent has closed its copy, and by then all input has been echoed unless a read from it failed |
| ForkServer.StepIsLinkStep | 07/server.c:99-119 | on each connection every step is nothing, a step of the client, or a step of the echo server the relay clients are proved against, but for the close after a failed read |
| ForkServer.SingleWaitForgets | 07/server.c:66 | with the commented-out single wait, two exits before the handler runs leave a zombie with nothing pending, from any state where two children are about to exit |
| ForkServer.SingleWaitLeavesZombie | 07/server.c:66 | and such a run exists from the start |
| ForkServer.SingleWaitNeedsTwo | 07/server.c:66 | with at most n accepted clients such a run exists if and only if n is at least 2 |
| ForkFleet.StepKeeps | 07/server.c:91-120 | with any number of str_cli clients on the forking server, every step of every process keeps each client and its connection in agreement |
| ForkFleet.StepWorks | 07/server.c:91-120 | and brings the whole system nearer to its end |
| ForkFleet.StuckMeansReturned | 07/server.c:91-120 | nothing can move only when every client has returned, every child has been waited for, and the parent waits in accept with no signal pending |
| ForkFleet.TotalCorrectness | 07/server.c:37-120 | for any number of clients and any interleaving of clients, parent, handler and children, runs are bounded, and a run that cannot be extended has returned every client with its own stdin as output and left no zombie and no pending signal |
| ForkFleet.ServerRun | 07/server.c:37-120 | the server's part of such a run is a run of the forking server |
| ForkFleet.EveryServerRun | 07/server.c:37-120 | and every run of parent, handler and children on clients that have sent all they have is the server's part of such a run |
| ForkServerProgram.SigChld | 07/server.c:62-70 | the loop terminates although children exit meanwhile, and when it returns with no new signal pending no zombie is left |
| ForkServerProgram.Main01 | 07/server.c:91-120 | in every turn whose accept no signal interrupts, and in no other, the loop accepts, forks and closes its copy, so connections and children number exactly these turns; interrupted anywhere by the handler it makes a run of the step relation and returns to accept holding the listening socket only |
| ForkServerChild.StrEcho | 07/server.c:37-60 | run as a child while all other processes move, and however reads are cut or interrupted, the loop makes a run of the step relation, echoes what was read in order, and all that its client sends unless the kernel answers a read with an error; the store of line 44 misses the buffer if and only if a read fills it |
| ForkServerChild.ServeConnection | 07/server.c:113-117 | the child's whole life makes a run of the step relation and ends in a zombie, with everything echoed unless a read failed |
| Netlink.EncodeUndoesWalk | 18/my_route.c:107 | over any bytes, encoding what a walk visits and appending what it leaves gives the bytes back |
| Netlink.WalkIsWellFormed | 18/my_route.c:107 | what a walk visits has consistent lengths and padding, and it stops only where no further item begins |
| Netlink.WalkUndoesEncode | 18/my_route.c:21 | over an encoded well-formed list the walk visits exactly its items in order and leaves exactly the rest |
| Netlink.PayloadIsSigned | 18/my_route.c:19 | the unsigned subtraction stored in `rtl` is the signed difference, negative for a message without room for a struct rtmsg |
| NetlinkWalk.ItemHere | 18/my_route.c:107 | pointer and signed counter advance as the walk does, also when the last alignment makes the counter negative |
| NetlinkWalk.WalkAttributes | 18/my_route.c:18-34 | the loop terminates and ends with the last RTA_DST and the last RTA_GATEWAY; an address is read beyond its attribute, or beyond the array, if and only if an attribute of these types is too short, or begins too late |
| NetlinkWalk.HandleRouteMessage | 18/my_route.c:12-38 | a message is reported if and only if it is a new route, with the attributes that follow its struct rtmsg, and the same of reads beyond them |
| NetlinkWalk.WalkMessages | 18/my_route.c:107-113 | over any received buffer what is printed is what the messages before the first NLMSG_DONE report, and addresses are read beyond their attributes, or beyond the array, if and only if one of these messages has such an attribute |
| NetlinkEncoder.RoundTrip | 18/my_route.c:12-36 | over encoded route messages the walk visits exactly them, each with exactly its attributes, and what is reported is read off their parts |
| NetlinkEncoder.PrintRoutes | 18/my_route.c:107-113 | the program, on a buffer of encoded messages, prints what their parts say |
| NetlinkBytes.MsgBytes | 18/my_route.c:107 | an encoded message begins with its length in four bytes and its type in two, the least significant first |
| NetlinkBytes.AttrBytes | 18/my_route.c:21-22 | an encoded attribute begins with its length and its type in two bytes each, the least significant first |
| NetlinkBytes.SingleReported | 18/my_route.c:13 | a buffer with one message is reported as one route if and only if its bytes 4 and 5 are 24 and 0 |
| NetlinkBytes.PrintSingle | 18/my_route.c:107-113 | and so the program prints it |
| NetlinkBytes.RouteBytes | 18/my_route.c:12-36 | a new route with a destination and a gateway, given byte by byte, is printed with exactly these |
| NetlinkBytes.DoneBytes | 18/my_route.c:108-111 | NLMSG_DONE, given byte by byte, ends the walk whatever follows |
| NetlinkBounds.InsideArray | 18/my_route.c:107-113 | whatever is received, no address is read beyond the array if and only if the array is not filled to its last byte, or is too short for an attribute |
| NetlinkBounds.OverreadsWhenShort | 18/my_route.c:23-32 | an encoded message is read beyond an attribute if and only if it is a new route with an address attribute of less than four bytes |
| NetlinkBounds.OverreadHidden | 18/my_route.c:23-32 | an empty RTA_DST followed by a full one is over-read, and what is printed does not show it |

## Left out

- ScanServer.Server.ServeClient: what 06/server.c does after a store outside its buffer, which C leaves undefined, is not modelled; only when that happens.
- ForkServer.StepKeeps: the step relation goes on after a read that fills the buffer as if the store of line 44 did no harm; when it happens is stated by ForkServerChild.StrEcho, which stops there.
- Fleet.TotalCorrectness: the clients have connected before the run begins, and no read of the server fails; failing reads are part of the servers' own theorems.
- ForkFleet.TotalCorrectness: likewise; an accept that a signal interrupts is called again (ForkServerProgram.Main01) and is no step of its own.
- ForkServerChild.StrEcho: the client sends any finite number of bytes and the kernel interrupts any finite number of reads, because termination has to be proved.
- ForkServerProgram.Main01: the endless loop is run for any number of turns, because termination has to be proved.
- NonBlocking.TotalCorrectness: EWOULDBLOCK is answered any finite number of times; the safety results hold at every point of every run.
- NetlinkWalk.WalkAttributes: the bytes that an over-read finds; the address is then only marked as stray.
- Netlink.WalkUndoesEncode: the wrap-around of the alignment macro at 32 bits, which no length within the 16384-byte buffer reaches.
- Socket creation, bind, listen, addresses, printing and NUL-termination for printing; the text form of addresses.
- Failing accept, select or fork, and short blocking writes.
- Inherited descriptors above `listenfd`, and descriptors from FD_SETSIZE upwards.
- stdio: fgets delivers the next piece of stdin and fputs emits the bytes just read, although in 07/client.c (str_cli02) and 16/fork_strcli.c nothing terminates them.
- `str_cli_01`, `str_cli_03` and the sum request code; the copies of these loops in 15/tcp_unix_client.c and 15/tcp_unix_server.c.
- The receiving side of 18/my_route.c (lines 80-105) and the test after the inner loop (line 114); the walk is proved over an arbitrary received buffer.
- 14/str_cli.c, 16/web.c, 17/print_finfo.c, 26/tcp_server01.c and the UDP, SCTP, broadcast, multicast, ARP and timeout samples.
