# Verified models of the ZeroMQ test programs and of the patched socket

This Dafny project models four things in the repository and proves what they are for.

1. **Peer discovery** (`3186/peer.cpp` around `3186/proxy.c`). Processes announce
   themselves with W, C and D messages through a broadcast proxy and keep a map from
   uuid to endpoint. Proved: what the main loop computes and that every process of the
   network is a run of it, convergence under churn and lost messages, departure
   without stale members, termination of the gossip, possibility of completion from
   every state, and exactly when the data connections mirror the map.
2. **The socket** (`libzmq/4.2.5/mods/src/socket_base.cpp`). Attach and terminate,
   termination-ack accounting, the inproc bind race and who can be found, the patched
   `term_endpoint` and its re-entrant command, the command throttle, deadlines, errors and
   command starvation of `send` and `recv`, context termination.
3. **The sequence-number harness** (`threads/common.h` with `threads/clientserver.cpp`
   and `threads/pushpull.cpp`). The gap detector is exact, and the verdict of every
   interleaving of the two programs is known.
4. **The monitor stream** (`monitor_event` in `socket_base.cpp`, `monitorEvent` in
   `3186/monitor.cpp`). The two-frame format round-trips exactly on the events it can
   carry, monitor sockets are conserved, and each carries exactly the events raised for it.

## How the models are built

Each component has a value for its state, a `Step` function per event and a `Run` over
lists of events; an event that is not enabled changes nothing, so the states of `Run`
are exactly the reachable ones and a lemma about `Run` is a lemma about every
interleaving. Code that works by changing fields is a class (`PeerProcess`, `Harness`,
`MonitoredSocket`, `Socket`) whose methods carry the source's loops and branches and are
proved to turn the old state into what the function says. The lemmas are about the
functions.

| file | models |
|---|---|
| `GapDetector.dfy`, `ControlChannel.dfy` | the harness, then whole runs of it |
| `Peer.dfy`, `Discovery.dfy` | one process, then the network of processes and proxy |
| `MainLoop.dfy` | what the main loop computes, alone and in the network |
| `Departure.dfy`, `Convergence.dfy`, `Gossip.dfy`, `Bootstrap.dfy`, `Takeover.dfy`, `Mirror.dfy` | properties of the network |
| `SocketState.dfy`, `Endpoints.dfy`, `Mailbox.dfy`, `SocketCalls.dfy`, `SocketIO.dfy`, `Socket.dfy` | the socket, its endpoint maps, the reading of its mailbox, its calls, and its class |
| `Attachment.dfy`, `Sessions.dfy`, `ConnectRoundTrip.dfy` | which pipes are attached and which sessions told; connect, bind and their undoing |
| `Throttle.dfy`, `Transfers.dfy`, `Starvation.dfy`, `SocketStop.dfy` | when commands are read, how calls end, the stop |
| `Inproc.dfy`, `Registry.dfy`, `InprocPairs.dfy`, `Reaping.dfy` | many sockets: the accounting, the table of addresses, connections, deallocation |
| `MonitorFrames.dfy`, `MonitorSession.dfy`, `MonitorLog.dfy` | the monitor stream |
| `Sums.dfy`, `Wrappers.dfy` | sums of sequences, for rankings; optional values |

## Assumptions

Discovery: uuids are distinct (they are numbers here; the program only compares them); a
live link is a lossless FIFO, and before it is live a PUB socket drops what it is given;
clocks do not run backwards; the outbox of a process that leaves is still delivered. The
last is a real assumption: the default linger is 0 (`3186/params.c:9`). The proxy is bound.
A process whose bind failed announces the empty endpoint, to which nothing can connect
(`Peer.Connectable`); an endpoint that a bind reported can be connected to, and no other
running process has it. The last, and that a process starts before the end time it reckons
from its start, is `Mirror.Orderly`, needed only for the mirror: the other lemmas about the
network hold in all its runs, with endpoints shared in any way.

Socket: `own_t`, `pipe_t`, the mailbox, `ctx` and `object_t` are not part of this
repository. What is assumed of them: `term_child` ignores what the socket does not own
and otherwise registers one ack; `launch_child` raises the sequence number and posts an
own command to the socket's mailbox; `pipe->terminate` may be repeated and does not call
back before it returns; a pipe acknowledges once, and only while it is attached; an
object is destroyed when it is terminating, no ack is outstanding and the sequence
numbers agree; `find_endpoint` raises the peer's sequence number while it holds the
registry; pointers of live objects are distinct and new ones are not reused.
`inbound_poll_rate` and `max_command_delay` are parameters. `stop_monitor` sends its
event when called without an argument.

Clock readings, the time stamp counter, answers of `xsend`/`xrecv`, and what each
`recv` on the mailbox meets -- commands that arrived since the one before, a signal --
are inputs of the functions. Where a lemma needs the rest of the library to behave,
`Mailbox.Lawful` says how: each command is allowed in the state in which it arrives (a
pipe acknowledges while attached, a bind was promised, and so on), so it may answer what
the same reading has processed.

A `term_endpoint` command makes the socket read its mailbox again in the middle of
reading it. The field `ending` is the stack of these calls. In the system of many sockets
(`Inproc`) one step is one `recv`, so other threads run between any two of them, nested
readings included; a call acts when its reading has ended with success.

Where code and intent disagree the code is followed, and the difference is a theorem: a
limit below 1 still sends one ping (`ControlChannel.RunVerdict`); push/pull may lose the
race between EXIT and a ping, with any threads at all (`ControlChannel.AlwaysPassesIff`); a
disconnect uses the endpoint in the message, and a failed connect still makes a map entry,
so connections mirror the map iff every process could bind and none takes over the port of
one that left (`Mirror.MirrorsIff`); `recv` keeps reading commands iff `ticks` is below the poll rate,
which an interrupted poll undoes (`SocketIO.StarvesIff`, `SocketIO.InterruptedPollSticks`)
until a later call heals it (`Starvation.RunHeals`);
a clock reading past the deadline is seen as past it iff it is not in a missed stretch
(`SocketIO.GivesUpIff`); `term_endpoint` succeeds iff some form of its address was listed
that no request queued before it asked to end (`SocketCalls.SucceedsIff`); and when the
address connected to is no longer listed it may end the entry of another that it resolves
to (`ConnectRoundTrip.ConnectThenTerm`).

## Model

| member | source | states |
|---|---|---|
| GapDetector.ExactDetector | threads/common.h:119-166 | For any delivery (lost, repeated, reordered, interleaved pings, then EXIT and anything after it) the run passes iff every thread sent numMsgs pings and its delivered numbers are exactly 1..numMsgs in order |
| GapDetector.DetectorState | threads/common.h:128-143 | After any delivery without EXIT: failed iff some thread's numbers have a gap, and until then the map holds how many pings of each thread arrived |
| GapDetector.GaplessStep | threads/common.h:132-142 | One more ping keeps all threads gapless iff it carries its thread's next number |
| GapDetector.AfterExit | threads/common.h:123-127 | EXIT ends the run with the tally unchanged; nothing behind it is looked at |
| GapDetector.Harness.constructor | threads/clientserver.cpp:109-112 | Both maps hold zero for every thread before any thread starts |
| GapDetector.Harness.CommandLoop | threads/common.h:94-116 | A thread sends 1, 2, 3, ... without gap, as many as it has turns and at most max(1, numMsgs), and records the count |
| GapDetector.Harness.ProcessControlMsg | threads/common.h:119-147 | One message changes the globals as the detector does |
| GapDetector.Harness.MainLoop | threads/clientserver.cpp:34-63 | The receive loop is the fold of the detector over what is delivered, stopping at EXIT |
| GapDetector.Harness.CheckResults | threads/common.h:154-166 | failed is set iff it was set or some entry of either map is not numMsgs |
| GapDetector.AnyDiffers | threads/common.h:156-165 | A pass over a map finds a differing entry iff there is one |
| ControlChannel.SendKeepsInv | threads/common.h:96-113 | Sending keeps: each thread's queued pings are exactly those sent and not received, in order |
| ControlChannel.ShutdownKeepsInv | threads/clientserver.cpp:117-127 | EXIT is sent once all threads returned, and every thread has then sent its full quota |
| ControlChannel.ReceiveKeepsInv | threads/clientserver.cpp:46-53 | Receiving keeps the accounting, and the detector never fails on what the queues hold |
| ControlChannel.Reachable | threads/pushpull.cpp:14-34 | The accounting holds in every reachable state of both programs, any number of threads, any limit |
| ControlChannel.RunVerdict | threads/pushpull.cpp:61-90 | A run that consumed EXIT passes iff the limit is at least 1 (or there are no threads) and no ping is still queued |
| ControlChannel.RunIsFinal | threads/common.h:123-127 | Once EXIT is consumed nothing is sent or received any more, so the verdict is final and a ping queued then is never seen |
| ControlChannel.EveryRunEnds | threads/clientserver.cpp:103-130 | At most 2 n max(1, numMsgs) + 2 steps are ever taken, and until EXIT is consumed some step is possible |
| ControlChannel.SharedFifoDrains | threads/clientserver.cpp:15-20 | With one shared FIFO, when EXIT is consumed every ping sent has been received |
| ControlChannel.ClientServerPasses | threads/clientserver.cpp:103-147 | Hence the client/server program passes in every interleaving |
| ControlChannel.ExitOvertakes | threads/pushpull.cpp:14-34 | For any number of threads from one and any limit, the push/pull program has a run in which EXIT is consumed with pings still queued |
| ControlChannel.Finishes | threads/pushpull.cpp:61-90 | Any run of either program can be continued until EXIT is consumed |
| ControlChannel.AlwaysPassesIff | threads/pushpull.cpp:133-150 | Which programs pass in every run: exactly those without command threads, and client/server with a limit of at least one |
| MonitorFrames.EventRoundTrip | libzmq/4.2.5/mods/src/socket_base.cpp:1729-1753 | Reading back a written event never trips a more-flag assert, and gives the event iff its code fits 16 bits, its value an int, its address 256 bytes without NUL; on either byte order |
| MonitorFrames.FrameLayout | libzmq/4.2.5/mods/src/socket_base.cpp:1736-1752 | The frames byte by byte: code in the first two bytes and value in the other four, host order, each modulo its width; more to come; then the address, the last frame |
| MonitorFrames.EventReadBack | 3186/monitor.cpp:59-88 | Whatever event is written: it is read iff its address fits the buffer, and then code and value have wrapped around and the address ends at its first NUL |
| MonitorFrames.ReadsIff | 3186/monitor.cpp:59-88 | Whatever frames come: when an event is read, and when an assert fires |
| MonitorFrames.StreamRoundTrip | 3186/monitor.cpp:59-88 | A list of events is read back equal iff every one of them can be carried |
| MonitorFrames.StreamInjective | libzmq/4.2.5/mods/src/socket_base.cpp:1737-1752 | Different lists of such events have different frames |
| MonitorFrames.FourBytes | 3186/monitor.cpp:51-54 | The packed 32-bit field reads back what was stored |
| MonitorFrames.IntCast | 3186/monitor.cpp:70 | (int)(uint32_t)v is v iff v is in the range of int |
| MonitorFrames.CStringIdentity | 3186/monitor.cpp:85 | Printing up to the first NUL gives the whole address iff it has none |
| MonitorFrames.CopyAndPrint | 3186/monitor.cpp:79-85 | Copying into the zeroed buffer and printing to its terminator gives the address up to its first NUL, within the buffer |
| MonitorFrames.MonitorEvent | 3186/monitor.cpp:59-88 | The two receives with their asserts do what the decoder function says and consume exactly two frames |
| MonitorSession.StepKeepsInv | libzmq/4.2.5/mods/src/socket_base.cpp:1588-1635 | Any call of monitor, event, stop or destroy keeps the accounting of sockets and sessions |
| MonitorSession.SessionsConserved | libzmq/4.2.5/mods/src/socket_base.cpp:1755-1768 | Over any sequence of calls: opened = closed + the live one; every event belongs to its session's mask; MONITOR_STOPPED is the last event of its session, so comes at most once |
| MonitorSession.StopIsFinal | libzmq/4.2.5/mods/src/socket_base.cpp:1377-1387 | After process_stop no socket is open, all opened ones are closed, and no call changes anything |
| MonitorLog.SessionCarries | libzmq/4.2.5/mods/src/socket_base.cpp:1718-1768 | Over any sequence of calls, told from the calls alone: the session that a call opens carries exactly the kinds raised and selected by its mask while it was live, in order, then MONITOR_STOPPED if it was ended and asked for that; a session whose start fails carries nothing; it is live iff it started well and nothing ended it |
| MonitorLog.StoppedIff | libzmq/4.2.5/mods/src/socket_base.cpp:1755-1768 | MONITOR_STOPPED is sent iff the session started well, its mask selects it, and a call ended it |
| MonitorLog.NoOtherSession | libzmq/4.2.5/mods/src/socket_base.cpp:1607-1613 | There are as many sessions as calls that open one, and the log holds events of no other |
| MonitorSession.MonitoredSocket.Emit | libzmq/4.2.5/mods/src/socket_base.cpp:1736-1752 | An event is appended to the log of the live session, if there is one; that what this adds up to is each session's events, none missing, is MonitorLog.SessionCarries |
| MonitorSession.MonitoredSocket.Stop | libzmq/4.2.5/mods/src/socket_base.cpp:1755-1768 | Announces if selected and wanted, closes, clears the mask |
| MonitorSession.MonitoredSocket.Monitor | libzmq/4.2.5/mods/src/socket_base.cpp:1588-1635 | New state for each way the call can go; 0 is returned iff it deregistered or everything succeeded |
| MonitorSession.MonitoredSocket.Raise | libzmq/4.2.5/mods/src/socket_base.cpp:1718-1726 | An event is written iff the mask selects it |
| MonitorSession.MonitoredSocket.ProcessStop | libzmq/4.2.5/mods/src/socket_base.cpp:1377-1387 | Stops the monitor and marks the context terminated |
| Peer.TurnEffect | 3186/peer.cpp:134-191 | Whether p is in the map after a turn depends only on whether the message taken is p's own C or D |
| Peer.LastWordIsBye | 3186/peer.cpp:111-182 | In any run where time does not go back and a process receives its own D only once expired, a process that left sent D last |
| Peer.PeerProcess.constructor | 3186/peer.cpp:103-109 | An empty map, nothing connected, nothing sent |
| Peer.PeerProcess.HandleMsg | 3186/peer.cpp:139-191 | One W, C or D message: connects that fail are only logged, the duplicate disconnect and the exit on the process's own D included |
| Peer.PeerProcess.TurnTop | 3186/peer.cpp:113-120 | D is sent iff the end time has passed; the loop is left only with immediate exit |
| Peer.PeerProcess.TurnBottom | 3186/peer.cpp:134-191 | C is sent while not connected to itself, then the message is handled |
| Peer.PeerProcess.Loop | 3186/peer.cpp:111-197 | The loop is the whole-run function, over any list of turns; what that function computes is MainLoop.MapIsLastWord, MainLoop.MainLasts and MainLoop.MainLeaves |
| MainLoop.MainLasts | 3186/peer.cpp:111-197 | While no turn was one to leave in: map, connections and proxies are what all the messages taken amount to, and what was sent is D for each turn that was due, C for each that began without itself in the map, and C to each newcomer |
| MainLoop.MainLeaves | 3186/peer.cpp:113-182 | A process leaves in the first turn to leave in -- due with immediate exit, or taking its own D while in its own map -- saying nothing after the D it may owe, and all it was given afterwards has no effect |
| MainLoop.RunningIff | 3186/peer.cpp:111-182 | It is still in its loop iff no turn was one to leave in |
| MainLoop.MapIsLastWord | 3186/peer.cpp:139-169 | For every list of turns and every p: p is in the map iff p's last C or D of all messages taken is a C |
| MainLoop.NodeIsMain | 3186/peer.cpp:111-197 | In every run of the network each process is where the loop is after that process's own turns; what the proxy passes on of it is, in order, what that loop says from when its link came up; what it takes is, in order, what the proxy delivered |
| MainLoop.MapInNetwork | 3186/peer.cpp:139-169 | So the map of a running process holds those whose last C or D, of what the proxy delivered and it took, is a C |
| Discovery.StepKeepsInv | 3186/peer.cpp:19-26 | Each message and each map entry comes from the process it names, carries that process's endpoint, and a D exists only of a process that said it after its end time |
| Discovery.RunGrows | 3186/peer.cpp:111-197 | Identity never changes; joining, linking, departing and leaving are for good; the clock does not go back |
| Discovery.Reachable | 3186/proxy.c:40-52 | The invariant holds in every reachable state of processes and proxy |
| Departure.LastWords | 3186/peer.cpp:178-182 | The turn a process leaves in sends nothing after its D |
| Departure.TurnFolds | 3186/peer.cpp:145-191 | A process's map is the fold of the messages it took |
| Departure.ForgetsStep | 3186/peer.cpp:111-190 | Every step keeps: what a leaving process has said so far ends, for everybody present or joining later, in its absence |
| Departure.ForgetsReachable | 3186/peer.cpp:111-190 | The same in every reachable state |
| Departure.NoStaleMember | 3186/peer.cpp:164-190 | Once a process has left and its messages are drained, no process still present has it in its map |
| Convergence.HeardStays | 3186/peer.cpp:152-169 | A process that stays is not forgotten by anyone who has heard it |
| Convergence.HeardByRelay | 3186/proxy.c:52 | A process is newly heard only by the proxy relaying its announcement |
| Convergence.FirstSight | 3186/peer.cpp:154-161 | A process whose link is up answers whoever it sees for the first time |
| Convergence.PairReachable | 3186/peer.cpp:134-162 | In every reachable state, of two processes that stay, each has answered the other or will, and of two that got their own announcement back one has heard the other |
| Convergence.PairConverges | 3186/peer.cpp:134-162 | Two self-connected processes that stay know each other once nothing between them is in flight, whatever was lost and whatever the others do |
| Convergence.Converges | 3186/peer.cpp:134-190 | When the network is quiet and every member is self-connected and not leaving, every member's map is exactly the membership with the right endpoints, after any joins, departures and losses |
| Mirror.HandleMirrors | 3186/peer.cpp:152-177 | Handling a message keeps connections equal to the map's endpoints iff a new C names an endpoint that can be connected to (or is), and a D names the stored endpoint (or, if that one is shared, an unconnected one) |
| Mirror.OneAfterOther | 3186/peer.cpp:60-64 | Two processes can both take part on one endpoint only if one leaves and the other starts after it, its end time being later |
| Mirror.ConnectionsMirrorMap | 3186/peer.cpp:154-169 | If every process could bind and none takes over the port of one that left, the connections are exactly the map's values in every reachable state of every process |
| Mirror.UnboundBreaks | 3186/peer.cpp:62-64 | A process whose bind failed announces an empty endpoint and breaks its own mirror |
| Takeover.TakesOver | 3186/peer.cpp:113-169 | A run in which u lives and leaves, its C and D still on their way, and v, doing nothing before, starts on u's port and ends with itself in its map and connected to nothing |
| Mirror.SuccessorBreaks | 3186/peer.cpp:164-169 | So whenever a process can take over a port, some run breaks the mirror |
| Mirror.MirrorsIff | 3186/peer.cpp:19-26 | Exactly when the mirror holds in all reachable states: every process could bind, and none can take over the port of one that left |
| Gossip.StepSettled | 3186/peer.cpp:152-162 | Among settled members each relay and receive lowers (n+1)(missing entries + outbox) + inbox, summed, and each message sent uses up a missing entry, whatever processes outside do |
| Gossip.GossipTerminates | 3186/peer.cpp:152-162 | Under every schedule at most the rank many messages move and at most n(n-1) are sent |
| Gossip.SettledWhenAllIn | 3186/peer.cpp:134-162 | Every reachable state is settled in which each member is self-connected and not leaving, and the departed have been heard out |
| Gossip.Completes | 3186/peer.cpp:127-162 | From a settled network some schedule empties every queue before anyone's time is up |
| Gossip.DiscoverySucceeds | 3186/peer.cpp:134-162 | From such a state, any continuation without joins and departures that leaves nothing undelivered has every member know exactly the members |
| Bootstrap.WelcomedReachable | 3186/proxy.c:40-45 | In every reachable state a process that joined has the welcome message ahead of it or has acted on it |
| Bootstrap.ConnectSelf | 3186/peer.cpp:134-157 | From any reachable state a running process can be brought to be connected to itself: the announcement repeated each turn makes up for those lost; only one that is due may leave on the way |
| Bootstrap.Leave | 3186/peer.cpp:113-182 | A process whose time has come can be brought to leave, at once or on its own D, whatever of its connection is still missing |
| Bootstrap.CanAlwaysSettle | 3186/peer.cpp:111-197 | From every reachable state whatsoever some continuation has everybody leave who said D or is due, and ends with all queues empty and every remaining member's map holding exactly the remaining members |
| Bootstrap.CanAlwaysConverge | 3186/peer.cpp:111-197 | In particular, while nobody has left or is due to, some continuation ends with every map holding exactly all processes |
| SocketState.CommandKeeps | libzmq/4.2.5/mods/src/socket_base.cpp:1358-1362 | Every command keeps the socket's invariant: pipes distinct, acks and sequence numbers accounted, destroyed iff done, every listed session taken over or about to be |
| SocketState.PipeTermAckKeeps | libzmq/4.2.5/mods/src/socket_base.cpp:1559-1576 | A terminated pipe leaves pipes and inprocs, and its ack is given back iff terminating |
| SocketState.RemoveInprocOne | libzmq/4.2.5/mods/src/socket_base.cpp:1564-1569 | Of the inproc list exactly the entry of that pipe goes |
| SocketState.BindKeeps | libzmq/4.2.5/mods/src/socket_base.cpp:339-354 | A pipe bound at any time, including after termination began, is accounted for |
| SocketState.ProcessTermKeeps | libzmq/4.2.5/mods/src/socket_base.cpp:1394-1408 | Beginning termination asks every pipe and child once and registers one ack each |
| SocketState.PostKeeps | libzmq/4.2.5/mods/src/socket_base.cpp:767-771 | A command that may arrive, binds redeeming their promise, keeps the accounting of sequence numbers |
| SocketState.DestroyedIffDone | libzmq/4.2.5/mods/src/socket_base.cpp:1522-1538 | A socket is destroyed iff it is terminating with no pipe, no child running down, and no bind or own command queued or promised |
| Endpoints.AskingAll | libzmq/4.2.5/mods/src/socket_base.cpp:1067-1082 | With distinct attached pipes the count of found pipes stays below the size of the vector, whose nulls match nothing, so the early break never fires and all attached pipes of the entries are asked |
| Endpoints.TermChildrenTell | libzmq/4.2.5/mods/src/socket_base.cpp:1083-1085 | Children only move from owned to told: all of the range, no others |
| Endpoints.AllTold | libzmq/4.2.5/mods/src/socket_base.cpp:998-1003 | With no own command pending, no listed session can be missed |
| Endpoints.TermRangeExact | libzmq/4.2.5/mods/src/socket_base.cpp:1059-1088 | Exactly the key's entries go; terminate is called exactly once on each attached pipe of theirs, on no other and on no stale one; all their sessions and no others are told; the invariant holds |
| Endpoints.KeyFinds | libzmq/4.2.5/mods/src/socket_base.cpp:1032-1057 | The key looked up is listed iff one of the tried forms of the address is, and the first listed form wins |
| Endpoints.InprocRangeExact | libzmq/4.2.5/mods/src/socket_base.cpp:1014-1030 | Each of the pipes listed for the inproc address is asked once, all of them attached and no other; exactly those entries go |
| Endpoints.EndItKeeps | libzmq/4.2.5/mods/src/socket_base.cpp:1005-1089 | Whatever address it is given, term_endpoint keeps the socket's invariant |
| Endpoints.EndItExact | libzmq/4.2.5/mods/src/socket_base.cpp:1005-1089 | Every way it can end: a bad address, an inproc address bound here (unregistered only), one connected to, any other that is listed (ended exactly), and one that is not (ENOENT, nothing happens) |
| Mailbox.Nested | libzmq/4.2.5/mods/src/socket_base.cpp:1410-1414 | What the reading of a requested term_endpoint leaves is what the outer reading goes on with |
| Mailbox.SignalDropsRequest | libzmq/4.2.5/mods/src/socket_base.cpp:1000-1003 | A signal during that reading drops the request and the outer reading goes on |
| Mailbox.HandledInOrder | libzmq/4.2.5/mods/src/socket_base.cpp:1358-1362 | All commands that were queued or arrived are handled in the order in which they came, nested readings included, up to those left |
| Mailbox.ReadIsTake | libzmq/4.2.5/mods/src/socket_base.cpp:1354-1362 | With no term_endpoint request among them, they are processed one after the other as if all had been there at the start |
| Mailbox.StopHandled | libzmq/4.2.5/mods/src/socket_base.cpp:1377-1387 | The stop flag is set iff it was or a stop was handled |
| Mailbox.OnlyAskedGo | libzmq/4.2.5/mods/src/socket_base.cpp:1410-1414 | A reading only removes whole addresses from the endpoint map, and only those that a handled term_endpoint request may mean |
| Mailbox.CarriedOut | libzmq/4.2.5/mods/src/socket_base.cpp:1410-1414 | And every request is carried out: in a reading that no signal interrupts and that meets no stop, each handled or pending request, however nested, leaves its address unlisted |
| Mailbox.ReadKeeps | libzmq/4.2.5/mods/src/socket_base.cpp:1358-1362 | A reading keeps the socket's invariant, whatever is allowed to arrive meanwhile and however its requests nest |
| Mailbox.AnswerIsLawful | libzmq/4.2.5/mods/src/socket_base.cpp:1559-1576 | A pipe may be bound and acknowledge its termination in the same reading |
| Attachment.ReadPipes | libzmq/4.2.5/mods/src/socket_base.cpp:1354-1362 | A reading, with all that is nested in it, attaches the pipes bound and detaches those whose acks are handled, in order, and no others |
| Sessions.ReadTells | libzmq/4.2.5/mods/src/socket_base.cpp:1354-1362 | A child is told to terminate during a reading iff it asked for that or an address it is listed under was ended; else it stays owned |
| SocketCalls.DrainFrame | libzmq/4.2.5/mods/src/socket_base.cpp:1364-1374 | A reading ends with the mailbox empty -- ETERM iff a stop was handled now or before -- or in EINTR |
| SocketCalls.DrainHandles | libzmq/4.2.5/mods/src/socket_base.cpp:1358-1362 | Handled and left together are what was queued and what came, in order; only requested addresses leave the endpoint map |
| SocketCalls.DrainKeeps | libzmq/4.2.5/mods/src/socket_base.cpp:1358-1362 | process_commands keeps the socket's invariant |
| SocketCalls.ReturnIsTerm | libzmq/4.2.5/mods/src/socket_base.cpp:1410-1414 | term_endpoint for a command is term_endpoint of the API, its result dropped |
| SocketCalls.TermEndpointExact | libzmq/4.2.5/mods/src/socket_base.cpp:982-1089 | Whatever is pending or arrives, other requests among it: a signal or the stop makes the call do nothing of its own; else its effect is exact on the socket as its reading left it, success iff the key is then listed |
| SocketCalls.RequestedFirst | libzmq/4.2.5/mods/src/socket_base.cpp:998-1065 | When its reading carries out a request for the same address the call returns ENOENT |
| SocketCalls.ListedAfter | libzmq/4.2.5/mods/src/socket_base.cpp:998-1003 | With no signal and no stop, an address is listed after the reading iff it was before and no request for it was queued or came (none reaching it by resolution) |
| SocketCalls.SucceedsIff | libzmq/4.2.5/mods/src/socket_base.cpp:998-1065 | Hence the call succeeds iff some form of its address that is tried was listed and nobody asked for that form before it |
| ConnectRoundTrip.ConnectMatches | libzmq/4.2.5/mods/src/socket_base.cpp:785-980 | A successful connect adds one entry to those of its address, naming a pipe unless immediate, and none for DEALER, SUB, PUB and REQ if the address is listed, whatever arrives; that the pipe is attached is Attachment.ConnectExact |
| ConnectRoundTrip.ConnectKeeps | libzmq/4.2.5/mods/src/socket_base.cpp:929-980 | A connect keeps the socket's invariant, whatever arrives |
| ConnectRoundTrip.ConnectThenTerm | libzmq/4.2.5/mods/src/socket_base.cpp:972-1089 | After any number of connects to a new address, successful or not and whatever arrives during each, a term_endpoint of it that gets past its reading -- tcp addresses with their resolution included -- restores the endpoint map, but for addresses that handled requests asked to end, iff the address itself is still listed then or no form that is tried is |
| ConnectRoundTrip.ConnectThenTermAlone | libzmq/4.2.5/mods/src/socket_base.cpp:1032-1065 | Without such requests: iff the connects left an entry, or no form of the address was listed in the first place |
| ConnectRoundTrip.ConnectsMatch | libzmq/4.2.5/mods/src/socket_base.cpp:785-980 | k successful connects to an address not listed make exactly one entry (once-only types) or k, each call's own, whatever arrives |
| ConnectRoundTrip.ConnectsKeep | libzmq/4.2.5/mods/src/socket_base.cpp:929-980 | They keep the socket's invariant, whatever arrives |
| ConnectRoundTrip.ConnectedIsEnded | libzmq/4.2.5/mods/src/socket_base.cpp:982-1089 | term_endpoint of that address, however a tcp address resolves, then tells every session they made, and of the pipes they made asks exactly those still attached; which those are is Attachment.ConnectedIsAsked |
| ConnectRoundTrip.BindMakes | libzmq/4.2.5/mods/src/socket_base.cpp:576-593 | A bind adds one entry without a pipe, under the resolved address, and keeps the invariant, whatever arrives |
| ConnectRoundTrip.BoundIsEnded | libzmq/4.2.5/mods/src/socket_base.cpp:1032-1089 | A term_endpoint of any address ends that entry exactly and tells the listener iff its target leads there: as given, else as a peer's form, else as a local one; else the entry stays |
| Attachment.ConnectExact | libzmq/4.2.5/mods/src/socket_base.cpp:660-971 | Every case of connect: which error comes first; it changes the socket beyond its reading exactly when it makes an entry, and then attaches the pipe the entry names (none if immediate) and posts the session's own command |
| Attachment.BindExact | libzmq/4.2.5/mods/src/socket_base.cpp:471-593 | The same for bind, which never attaches a pipe |
| Attachment.ConnectsAttach | libzmq/4.2.5/mods/src/socket_base.cpp:955-964 | Over any connects, successful or not, the pipes attached are those there were, those bound and those of the entries made, less those whose ack was handled since |
| Attachment.EntryAttached | libzmq/4.2.5/mods/src/socket_base.cpp:955-964 | The pipe of an entry made is attached as long as its ack has not been handled |
| Attachment.WhichMake | libzmq/4.2.5/mods/src/socket_base.cpp:785-796 | Of successful connects to a new address the first makes an entry, and the others too unless the socket type connects once |
| Attachment.ConnectedIsAsked | libzmq/4.2.5/mods/src/socket_base.cpp:1066-1082 | So term_endpoint misses no pipe: each one made by the connects whose ack has not been handled since is attached when it has done its reading, and is asked |
| Throttle.NeverPostponed | libzmq/4.2.5/mods/src/socket_base.cpp:1336-1352 | A throttled call more than the delay past an earlier one finds the mailbox read in between or reads it now, however many calls were skipped |
| Throttle.ReadsAreSpaced | libzmq/4.2.5/mods/src/socket_base.cpp:1345-1352 | A throttled call reads iff the counter went back or is more than the delay past the last throttled read |
| Throttle.LookHandlesInOrder | libzmq/4.2.5/mods/src/socket_base.cpp:1354-1367 | A call that reads handles what was queued and what arrived, oldest first and all of it unless interrupted; without term_endpoint requests it leaves the socket as processing them one by one would |
| SocketIO.LeftExact | libzmq/4.2.5/mods/src/socket_base.cpp:1156 | (int)(end - now) on uint64_t is the true difference iff that is in the range of int |
| SocketIO.LeftSign | libzmq/4.2.5/mods/src/socket_base.cpp:1155-1157 | Before the deadline the cast gives the time left; past it, a number not positive iff the reading is not in one of the missed stretches |
| SocketIO.GivesUpIff | libzmq/4.2.5/mods/src/socket_base.cpp:1145-1162 | A turn without a message ends in EAGAIN iff its reading is at or past the deadline and not a missed one; after a missed one the loop waits on |
| SocketIO.LoopFollows | libzmq/4.2.5/mods/src/socket_base.cpp:1145-1162 | The waits of the loop are a schedule that depends on timeout, deadline and clock only |
| SocketIO.FiniteWaits | libzmq/4.2.5/mods/src/socket_base.cpp:1155-1160 | Whatever the clock says, a finite timeout never becomes an infinite wait |
| SocketIO.NotEarlyWaits | libzmq/4.2.5/mods/src/socket_base.cpp:1155-1160 | With a clock that does not run backwards, EAGAIN comes only at or after the deadline, however late a reading is |
| SocketIO.WaitsOnTime | libzmq/4.2.5/mods/src/socket_base.cpp:1145-1162 | With no missed reading every wait is for exactly the time left, only the last turn may find the deadline passed, and EAGAIN comes then and only then |
| SocketIO.LoopDeadline | libzmq/4.2.5/mods/src/socket_base.cpp:1137-1162 | The blocking loop has all three properties, each under its own condition on the clock |
| SocketIO.LoopForever | libzmq/4.2.5/mods/src/socket_base.cpp:1137-1162 | A negative timeout waits forever in every turn and never gives EAGAIN |
| SocketIO.LoopAsks | libzmq/4.2.5/mods/src/socket_base.cpp:1145-1162 | The socket type is asked once a turn, again only while it says "again"; success iff its last answer was that the message was taken |
| SocketIO.SendTransfers | libzmq/4.2.5/mods/src/socket_base.cpp:1091-1165 | send asks xsend in order, first and in the loop, and goes on only while it says "again"; it returns 0 iff the last answer was that the message was taken (so once), and fails with xsend's error iff that was the last; after a stop it ends in ETERM, or EINTR when a signal came first |
| SocketIO.RecvTransfers | libzmq/4.2.5/mods/src/socket_base.cpp:1167-1261 | The same for recv, which asks at most twice when it must not block |
| SocketIO.SendDeadline | libzmq/4.2.5/mods/src/socket_base.cpp:1137-1162 | A blocking send with a finite timeout: waits positive always; EAGAIN only at or after start + timeout if the clock is monotone; each wait exactly the time left if no reading is missed |
| SocketIO.RecvDeadline | libzmq/4.2.5/mods/src/socket_base.cpp:1229-1257 | The same for recv, whose first turn does not wait right after a poll |
| SocketIO.SendNonBlocking | libzmq/4.2.5/mods/src/socket_base.cpp:1131-1135 | With ZMQ_DONTWAIT or a zero timeout send returns without any wait, whatever it meets |
| SocketIO.RecvNonBlocking | libzmq/4.2.5/mods/src/socket_base.cpp:1210-1227 | The same for recv |
| SocketIO.RecvKeepsTicks | libzmq/4.2.5/mods/src/socket_base.cpp:1191-1196 | Without an interrupted poll, ticks stays below the poll rate and bounds what was handed out since the mailbox was read |
| SocketIO.CommandsNotStarved | libzmq/4.2.5/mods/src/socket_base.cpp:1183-1245 | Over any run of recv calls with no interrupted poll, at most inbound_poll_rate messages come between two reads of the mailbox |
| SocketIO.InterruptedPollSticks | libzmq/4.2.5/mods/src/socket_base.cpp:1191-1195 | A poll that is interrupted leaves ticks at the poll rate |
| SocketIO.StarvedAfterInterrupt | libzmq/4.2.5/mods/src/socket_base.cpp:1191-1208 | From there, as long as messages keep coming, the mailbox is never read |
| SocketIO.StarvesIff | libzmq/4.2.5/mods/src/socket_base.cpp:1191-1196 | Commands are safe from starvation, over all runs with no further interrupted poll, iff ticks is below the poll rate |
| Starvation.RecvHeals | libzmq/4.2.5/mods/src/socket_base.cpp:1210-1243 | A socket at or past the poll rate is safe again after a recv iff the call was told "again" first and then read the mailbox with success: at once if it must not block, else ending with a message |
| Starvation.RunHeals | libzmq/4.2.5/mods/src/socket_base.cpp:1191-1243 | Over any calls after an interrupted poll: safe iff some call has healed it and no poll was interrupted since |
| Transfers.LoopReads | libzmq/4.2.5/mods/src/socket_base.cpp:1236-1257 | The blocking loop reads the mailbox once per wait and does nothing else to the socket; it ends with what a reading answers iff that is not success |
| Transfers.SendExact | libzmq/4.2.5/mods/src/socket_base.cpp:1091-1165 | Every case of send: EFAULT and ETERM before anything; else its first reading and one per wait are all it does, and its error says how it ended |
| Transfers.RecvExact | libzmq/4.2.5/mods/src/socket_base.cpp:1167-1261 | The same for recv: its poll at the rate, its second reading or its waits; which of them set ticks back; one message handed out iff it succeeds |
| Transfers.SendAgain | libzmq/4.2.5/mods/src/socket_base.cpp:1131-1162 | With no signal and no stop, a send whose last answer was "again" fails with EAGAIN, or is still waiting, which one that must not block never is |
| Transfers.RecvAgain | libzmq/4.2.5/mods/src/socket_base.cpp:1214-1255 | The same for recv |
| Transfers.SendForever | libzmq/4.2.5/mods/src/socket_base.cpp:1137-1162 | With a negative timeout send waits without bound in every turn and never gives EAGAIN |
| Transfers.RecvForever | libzmq/4.2.5/mods/src/socket_base.cpp:1229-1257 | The same for recv, but for a first turn right after a poll |
| SocketStop.StopIsPermanent | libzmq/4.2.5/mods/src/socket_base.cpp:1377-1387 | However the stop came to be processed, and whatever commands arrive and are processed afterwards: the flag never clears, every getsockopt, bind, connect, term_endpoint, send, recv and monitor call fails with ETERM, all these calls together leave socket and monitor as if not made, and no endpoint entry comes or goes |
| SocketStop.CallMeetsStop | libzmq/4.2.5/mods/src/socket_base.cpp:664-673 | A getsockopt, connect or bind that finds the stop queued, and is not interrupted, returns ETERM and does nothing of its own |
| SocketStop.TermMeetsStop | libzmq/4.2.5/mods/src/socket_base.cpp:986-1003 | The same for term_endpoint |
| SocketStop.BlockedMeetsStop | libzmq/4.2.5/mods/src/socket_base.cpp:1145-1148 | A blocked send or recv in which a stop was processed ends in ETERM (or EINTR) with the socket type not asked in that turn and "again" its answer before |
| SocketStop.BlockedIsWoken | libzmq/4.2.5/mods/src/socket_base.cpp:1236-1240 | One that finds the stop queued when it wakes, and is not interrupted, ends there in ETERM |
| Inproc.RecvKeepsWorld | libzmq/4.2.5/mods/src/socket_base.cpp:1354-1362 | One recv of any socket, nested term_endpoint readings and inproc unbinds included, keeps the accounting of all sockets |
| Inproc.CallKeepsWorld | libzmq/4.2.5/mods/src/socket_base.cpp:929-1089 | connect, bind and term_endpoint of any kind, when their reading has succeeded, keep the accounting; what they do is InprocPairs.CallsExact, and what becomes of the table Registry.RegistryExact |
| Inproc.FindKeepsWorld | libzmq/4.2.5/mods/src/socket_base.cpp:687-688 | Looking up a peer raises its sequence number, accounted as a promise of one bind |
| Inproc.SendBindKeepsWorld | libzmq/4.2.5/mods/src/socket_base.cpp:767-780 | Sending the bind redeems the promise, whatever became of the peer in between |
| Inproc.CloseKeepsWorld | libzmq/4.2.5/mods/src/socket_base.cpp:1293-1323 | The reaper's start unregisters the socket, begins termination and deallocates it if nothing is left |
| Inproc.WorldReachable | libzmq/4.2.5/mods/src/socket_base.cpp:1494-1510 | The accounting holds for every socket in every reachable state of sockets connecting to each other, binding and disconnecting, over inproc and otherwise |
| Inproc.AcksAccounted | libzmq/4.2.5/mods/src/socket_base.cpp:1394-1408 | Outstanding acks are the children told that have not answered plus, when terminating, the attached pipes, all of them asked, late-bound ones too; sequence numbers differ by binds queued and promised |
| Inproc.ReapedIffUnreferenced | libzmq/4.2.5/mods/src/socket_base.cpp:1522-1538 | A closed socket is deallocated exactly once, and exactly when, its mailbox read, it has no pipe, no child running down, no bind queued, and no thread between looking it up and binding to it; nobody can look it up any more |
| Registry.RegistryExact | libzmq/4.2.5/mods/src/socket_base.cpp:1014-1018 | Every step, address by address: a bind enters it, its owner's term_endpoint and close take it out, nothing else changes it |
| Registry.EndUnregisters | libzmq/4.2.5/mods/src/socket_base.cpp:1014-1018 | term_endpoint of an inproc address bound here unregisters exactly that and touches no socket |
| Registry.RequestUnregisters | libzmq/4.2.5/mods/src/socket_base.cpp:1410-1414 | So does a pending request when its reading succeeds; after a signal or a stop it does not |
| Registry.NotFound | libzmq/4.2.5/mods/src/socket_base.cpp:687-688 | An address that is not registered cannot be found until somebody binds to it |
| Registry.FoundIff | libzmq/4.2.5/mods/src/socket_base.cpp:687-688 | In every reachable state an address leads to a socket iff that socket bound to it and has neither ended it nor closed since, whatever the others do |
| InprocPairs.SendBindExact | libzmq/4.2.5/mods/src/socket_base.cpp:767-780 | An inproc connect to another socket: one end of a new pair attached and listed here, the other queued there, nobody else touched |
| InprocPairs.SelfConnectExact | libzmq/4.2.5/mods/src/socket_base.cpp:767-780 | The same when a socket connects to itself |
| InprocPairs.InprocsExact | libzmq/4.2.5/mods/src/socket_base.cpp:1014-1030 | An inproc connection is listed from its connect until its pipe's ack is read or its socket ends the address |
| InprocPairs.StaysListed | libzmq/4.2.5/mods/src/socket_base.cpp:780 | Over any run it stays listed until one of these happens |
| InprocPairs.ConnectedIsAsked | libzmq/4.2.5/mods/src/socket_base.cpp:1020-1030 | So, whatever goes on in between, term_endpoint of an address connected to and not bound here asks the pipe that the connect made |
| InprocPairs.BecomesCallable | libzmq/4.2.5/mods/src/socket_base.cpp:664-673 | Without a stop, the reading that a call begins with can always be finished, and the call can act |
| InprocPairs.CanConnect | libzmq/4.2.5/mods/src/socket_base.cpp:687-780 | From every reachable state, a thread that may call, and an address another socket is bound to: some continuation has both attached to their ends of a new pair, the connection listed |
| InprocPairs.CallsExact | libzmq/4.2.5/mods/src/socket_base.cpp:929-1089 | In the world too, connect and bind make their entry under new pointers or change nothing, and term_endpoint ends what it is given exactly |
| InprocPairs.ReadyIsRunning | libzmq/4.2.5/mods/src/socket_base.cpp:664-673 | In every reachable state a call that goes on to act has seen no stop and has no term_endpoint pending |
| Reaping.ConnectsThrough | libzmq/4.2.5/mods/src/socket_base.cpp:767-780 | The connects under way towards a closed socket can all go through |
| Reaping.AcksCome | libzmq/4.2.5/mods/src/socket_base.cpp:1494-1538 | With its mailbox read and no connect under way, the acks it is owed bring it to be deallocated |
| Reaping.CanBeReaped | libzmq/4.2.5/mods/src/socket_base.cpp:1494-1538 | From every reachable state with a socket closing some continuation deallocates it |
| SocketClass.Socket.Attach | libzmq/4.2.5/mods/src/socket_base.cpp:339-354 | The pipe is attached; when terminating it is also asked and one ack registered |
| SocketClass.Socket.Term | libzmq/4.2.5/mods/src/socket_base.cpp:1394-1408 | The loop over the pipes asks each, then acks are registered and own_t terminates |
| SocketClass.Socket.EraseInproc | libzmq/4.2.5/mods/src/socket_base.cpp:1564-1569 | The first entry of the pipe is erased, if there is one |
| SocketClass.Socket.OnPipeTerminated | libzmq/4.2.5/mods/src/socket_base.cpp:1559-1576 | The pipe leaves both lists; its ack is given back iff terminating |
| SocketClass.Socket.Dispatch | libzmq/4.2.5/mods/src/socket_base.cpp:1377-1414 | One command has exactly its effect on the socket and on what is left to arrive; a term_endpoint command calls term_endpoint, which calls process_commands |
| SocketClass.Socket.Empty | libzmq/4.2.5/mods/src/socket_base.cpp:1354-1374 | The loop of process_commands, with all calls nested in it, is the reading function: final state, what is left to arrive, result |
| SocketClass.Socket.Commands | libzmq/4.2.5/mods/src/socket_base.cpp:1325-1375 | process_commands with its throttle |
| SocketClass.Socket.ConnectTo | libzmq/4.2.5/mods/src/socket_base.cpp:660-970 | connect over a session transport, every early return included, is the connect function, whose every case Attachment.ConnectExact states |
| SocketClass.Socket.BindTo | libzmq/4.2.5/mods/src/socket_base.cpp:471-593 | bind of a tcp listener, every early return included, is the bind function, whose every case Attachment.BindExact states |
| SocketClass.Socket.CollectPipes | libzmq/4.2.5/mods/src/socket_base.cpp:1067-1073 | The vector is one null per entry followed by the entries' pipes |
| SocketClass.Socket.TermPipes | libzmq/4.2.5/mods/src/socket_base.cpp:1074-1082 | The loop with its break asks the attached pipes that are in the vector, up to as many as it has elements |
| SocketClass.Socket.TermSessions | libzmq/4.2.5/mods/src/socket_base.cpp:1083-1085 | term_child on every session of the range |
| SocketClass.Socket.TermListed | libzmq/4.2.5/mods/src/socket_base.cpp:1059-1088 | Pipes, sessions and entries of the key |
| SocketClass.Socket.Resolve | libzmq/4.2.5/mods/src/socket_base.cpp:1032-1057 | The key: as given, else resolved as a peer's address, else as a local one |
| SocketClass.Socket.Disconnect | libzmq/4.2.5/mods/src/socket_base.cpp:982-1089 | term_endpoint, every early return included, from any state, called by the application or for a command |
| SocketClass.Socket.Act | libzmq/4.2.5/mods/src/socket_base.cpp:1005-1089 | Its part after the reading, the inproc branch included |
| SocketClass.Socket.Turn | libzmq/4.2.5/mods/src/socket_base.cpp:1146-1161 | One turn of the blocking loop |
| SocketClass.Socket.Wait | libzmq/4.2.5/mods/src/socket_base.cpp:1236-1257 | The loop is the loop function: final state, outcome, waits and answers |
| SocketClass.Socket.SendMsg | libzmq/4.2.5/mods/src/socket_base.cpp:1091-1165 | send, every early return included, is the send function, whose every case Transfers.SendExact states |
| SocketClass.Socket.RecvMsg | libzmq/4.2.5/mods/src/socket_base.cpp:1167-1261 | recv, every early return included, is the recv function, whose every case Transfers.RecvExact states, and which heals a socket exactly as Starvation.RecvHeals says |
| SocketClass.Socket.PollEveryFew | libzmq/4.2.5/mods/src/socket_base.cpp:1191-1196 | Commands are looked at when ticks reaches the poll rate, and ticks is reset only if that succeeded |

## Left out

- Networking, TCP, epoll, signalers, locks and threads of the operating system: queues, clocks and schedules stand for them.
- The steps of `3186/proxy.c` that create and bind its sockets; its welcome message and its relay are actions of the network.
- Transports other than tcp-like sessions and inproc (pgm, norm, tipc, vmci, udp, ipc), address parsing and resolution: their answers are inputs.
- Inproc connects to an address nobody has bound yet (`pend_connection`, `connect_pending`); the bookkeeping is in ctx, which is not part of this repository.
- High-water marks, routing-id messages, `hiccuped`, `setsockopt`, option values of `getsockopt`, `join` and `leave`, and the socket factory: flat case analysis, or library code not shown.
- Connects and binds that fail for want of resources (threads, ports, memory) other than those stated.
- Socket types' own `xsend`, `xrecv`, `xattach_pipe` and the like: their answers are inputs.
- The optional branches of `3186/peer.cpp` that only touch the data PUB socket (`fix1256`, `pollAfterDisconnect`, `sendAfterDisconnect`) and the data messages themselves.
- `get_zmqEventName`, logging, parameter parsing, time stamps.
- `threads/pairs.cpp` and `threads/pubsub.cpp`: their extra behaviour is in library code; loss is covered by the detector's arbitrary delivery.
- SIGINT in the harness, which clears the flags outside the protocol, and a poll that fails.
- `pingpong/`, `reconnect/`, `connect/`: easy invariants or near copies of the modelled programs.
- Inproc.AcksAccounted: `int` overflow of the ack counter and wrap-around of the sequence numbers are not modelled.
- SocketIO.CommandsNotStarved: `ticks` is unbounded here; its wrap-around after 2^31 calls is not modelled.
- SocketIO.StarvedAfterInterrupt: for the same reason it does not say that `ticks` would meet the poll rate again after wrapping around.
- GapDetector.ExactDetector: message numbers are unbounded; `long` does not wrap around.
- MonitorFrames.MonitorEvent: a first frame under 6 bytes or an address over 256 bytes is reported as an overrun, where the program would read or write past a buffer.
