# VR Juggler: proofs about its protocols, codecs and state machines

This project models seven parts of VR Juggler in Dafny and proves what they are for.

- **Cluster protocol** (`ClusterLink`, `ClusterProcess`, `Cluster`, `ClusterDelivery`; `NetworkNodes`, `NetworkWait`,
  `NetworkCalls`, `NetworkLoop`; `WaitAgreement`, `CallAgreement`; `Reactor`, `ReactorReports`).
  One master and any number of slaves exchange untagged end blocks over FIFO links. All run the same program of
  cluster operations: the barriers of `start` and of the first ready frame, `preDraw`, `swapBarrier`, `postPostFrame`
  and direct updates, each with its corks.
  `Cluster` is the whole cluster as a state machine over interleaved steps, with histories on every link;
  safety, skew, frame alignment, termination and where the cluster stops are proved for every run.
  `ClusterDelivery` reads off a run what plugins and calls hand over, and shows that this is what arrives, and when.
  `NetworkLoop` holds the manager's loops as methods on node objects, for every state of the connections, every
  sequence of arrivals and every sequence of reports: nodes without a socket, failing sends and reads, time-outs and
  exceptions. `NetworkNodes` specifies them, `NetworkWait` and `NetworkCalls` prove exactly when they return.
  `CallAgreement` shows that the methods are runs of the state machine; `Reactor` is the source of the reports, and
  `ReactorReports` says which ones it yields.
- **MD5** (`Md5Spec`, `Md5Laws`, `Md5Vector`, `Md5Compression`, `Md5Context`).
  `Md5Spec` states sections 3.1 to 3.5 of RFC 1321 as functions;
  the unrolled compression and the buffered context are methods proved against it, for every division of a message.
  `Md5Laws` says bit by bit and byte by byte what those functions compute, and `Md5Vector` derives a digest of the
  RFC's own test suite from them, step by step.
- **Packet framing** (`VprTypes`, `PacketBytes`, `Packets`, `PacketLayout`, `PacketObjects`).
  The four cluster packets, their 12-byte header and the receiver, on any byte stream. The byte formats are those of `vpr::BufferObjectWriter`,
  `vpr::BufferObjectReader` and `vpr::GUID`: integers most significant byte first, a string as a 4-byte length and
  its bytes, a GUID as sixteen bytes, a bool as one byte. The four packet classes are one class, `PacketObject`,
  whose fields say which of them it is; where the source dispatches on the class, the model distinguishes cases.
- **Input log** (`InputLog`, `InputLogger`). Recording, in-place compression and playback, frame by frame.
  A sample is an opaque value and `Node::isEqual` a comparison given as a parameter; where a result needs it to be an
  equivalence that tells samples from stamps, the lemma says so.
- **Clock synchronisation** (`ClockTolerance`, `ClusterDelta`, `ClusterSync`, `ClusterDeltaLoop`, `ClusterDeltaObject`).
  What a round computes in unsigned 64-bit microseconds; the two sides running against each other, every interleaving
  of their reads and writes (`ClusterSync`); and the two loops as methods of one object (`ClusterDeltaObject`),
  joined by what they send (`ClusterDeltaLoop`).
- **UUIDs of version 1** (`UuidV1`, `UuidGenerator`). Field packing, saved state and uniqueness over a run of calls.
- **Sonix** (`SoundTable`, `Sonix`). Live replacement of the sound implementation, with fallback to the stub.

Clock readings, random numbers, the bytes a socket delivers, the outcome of starting a sound API and the order in
which the reactor reports nodes are parameters or free choices, so every statement holds for all of them.

Where the code differs from what its documentation or comments say, or stops short of it, the model follows the code:

- `MD5Update` computes `i + 63 < inputLen` in 32 bits. `Md5Context.GuardStopsIffNoWrap` gives the exact condition
  under which that ends the loop where it should; inputs of at most 2^32 - 64 bytes always meet it, and
  `Md5Context.GuardCanWrap` is one that does not.
- `preDraw` and `postPostFrame` cork the network and rely on `update` to uncork it, but call `update` only when there
  is a plugin. `Cluster.CompletesIff` gives the exact condition for a program to be completed: with slaves and without
  a plugin, every run stops in the first barrier that follows such a cork with no direct `update` in between.
  For the kernel's own loop that is the first `swapBarrier` under the software swap lock (`Cluster.KernelCompletesIff`);
  the barriers of `start` and of the first ready frame come before any cork. A corked connection is taken to send
  nothing until it is uncorked.
- A node that is shut down loses its socket, but stays in the list and its handle stays in the selector. The comments
  in `updateAllNodes` say that counting it keeps the call from waiting for ever. That is so only in part:
  the next `update` dereferences the missing socket when it uncorks (`NetworkCalls.UpdateReturnsIff`); the master's
  `barrier` counts lost nodes, once for every visit, so it can return without having heard from the others
  (`NetworkCalls.MasterReturnsUnread`) or wait for ever (`NetworkCalls.MasterWaitsForLost`); and the count can pass
  the number it is compared with (`NetworkCalls.UpdateNeverReturns`). `NetworkWait.WaitedIs` is the exact condition,
  for builds with and without assertions; in the former, visiting a node that is not connected ends the program.
- `ClusterDelta.h` says the tolerance grows by 1 ms; the code raises it to the power 1.5. `vpr::Interval` promises
  comparisons that survive a roll-over and does not provide them; `ClusterDelta.ErrorComputed` says what then happens.
- `get_current_time` never assigns `time_last`, so its counter for repeated readings is not used and a reading that
  is not zero is the timestamp. `UuidV1.RepeatedReadingCollides` is the consequence.
- `write_state` saves only every ten seconds, so a restarted process may not know the last calls of the earlier one.
  `UuidV1.RestartRepeatsIff` says exactly when it then repeats a UUID.
- `readRaw` checks only that some byte is left; a longer read can run past the buffer. That outcome is kept apart
  (`Overrun`) from the exception (`Eof`). `Packets.OverrunsIff` says exactly for which payloads it happens,
  `Packets.ReceiveOverrunsIff` for which byte streams, and `Packets.OverrunIsReached` gives one.

The main results: `Cluster.BarrierSafety`, `Cluster.CompletesIff` and `ClusterDelivery.PacketsArrive` for every run of
the cluster; `NetworkWait.WaitedIs`, `NetworkCalls.UpdateReturnsIff` and `CallAgreement.UpdateRun` for the manager's
calls; `Md5Context.DigestOfChunks` and `Md5Vector.DigestOfAlphabet`; `Packets.StreamRoundTrip`,
`PacketLayout.WireLayout` and `Packets.ReceiveOverrunsIff`; `InputLog.RecordThenPlay`; `ClusterSync.OffsetReturned` and
`ClusterDeltaLoop.Synchronised`; `UuidV1.SameUuidIff` and `UuidV1.RestartRepeatsIff`; `Sonix.Run` with
`SoundTable.SetReadsBack`.

`dafny verify dfyconfig.toml` checks the whole project.

## Model

| member | source | states |
|---|---|---|
| Md5Compression.RoundOne | external/md5-c/md5c.c:196-212 | the sixteen unrolled calls, with registers rotated by argument order, equal steps 0 to 15 of the uniform loop |
| Md5Compression.RoundTwo | external/md5-c/md5c.c:214-230 | likewise steps 16 to 31 |
| Md5Compression.RoundThree | external/md5-c/md5c.c:232-248 | likewise steps 32 to 47 |
| Md5Compression.RoundFour | external/md5-c/md5c.c:250-266 | likewise steps 48 to 63 |
| Md5Compression.Transform | external/md5-c/md5c.c:188-277 | the state array becomes the compression of section 3.4: 64 uniform steps and the feed-forward addition |
| Md5Compression.StepBijective | external/md5-c/md5c.c:73-97 | for a fixed block each step has a two-sided inverse on the four-word state |
| Md5Compression.RoundsBijective | external/md5-c/md5c.c:188-266 | for a fixed block the map before the feed-forward addition is a bijection, for any number of steps |
| Md5Context.DecodeInvertsEncode | external/md5-c/md5c.c:281-310 | decoding what was encoded gives every word back |
| Md5Laws.FSelects | external/md5-c/md5c.c:66 | F takes each bit from y where x has a one and from z where it has a zero |
| Md5Laws.GSelects | external/md5-c/md5c.c:67 | G takes each bit from x where z has a one and from y where it has a zero |
| Md5Laws.HIsParity | external/md5-c/md5c.c:68 | H is the parity of each bit |
| Md5Laws.ITurnsOver | external/md5-c/md5c.c:69 | I turns over the bits of y, except where x has a zero and z a one |
| Md5Laws.RotateMoves | external/md5-c/md5c.c:71-73 | rotating by n puts the upper n bits below the others, for every word and n |
| Md5Laws.WordsInTurn | external/md5-c/md5c.c:196-266 | the rounds take the words at distances 1, 5, 3 and 7, from the words 0, 1, 5 and 0 on |
| Md5Laws.LittleEndian | external/md5-c/md5c.c:281-293 | every word is written as four bytes, the lowest first |
| Md5Laws.LengthInBits | external/md5-c/md5c.c:165-166 | the last eight bytes are the number of bits modulo 2^64, byte by byte |
| Md5Laws.InitialBytes | external/md5-c/md5c.c:108-111 | the registers start as the bytes 01 23 45 ... 32 10 |
| Md5Vector.DigestOfAlphabet | external/md5-c/md5c.c:101-277 | the digest of the 26 letters is the one in appendix A.5 of RFC 1321, so every constant, shift and word of the 64 steps is as it should be |
| Md5Context.CountAdvances | external/md5-c/md5c.c:127-133 | the two-word counter with its carry and the bits shifted out counts eight times the bytes, modulo 2^64 |
| Md5Context.CountGivesIndex | external/md5-c/md5c.c:125 | the low counter word yields the number of bytes buffered, for any length |
| Md5Context.CountIsLength | external/md5-c/md5c.c:166 | encoding the counter gives the 64-bit length of section 3.2 |
| Md5Context.GuardStopsIffNoWrap | external/md5-c/md5c.c:142-143 | the loop guard, computed in 32 bits, ends the loop at the last whole block if and only if i + 63 does not wrap |
| Md5Context.GuardCanWrap | external/md5-c/md5c.c:142-143 | one buffered byte and an input of 2^32 - 1 bytes make it wrap |
| Md5Context.Context.TransformBlocks | external/md5-c/md5c.c:135-149 | all whole blocks of buffer and input are compressed in order; what is left is shorter than a block |
| Md5Context.Context.Update | external/md5-c/md5c.c:117-154 | afterwards the context stands for the old message followed by the input: state, tail in the buffer and counter |
| Md5Context.Context.AppendPadding | external/md5-c/md5c.c:165-176 | the message absorbed is the padded message of sections 3.1 and 3.2: 0x80, zeros, length before padding |
| Md5Context.PadLengthIs | external/md5-c/md5c.c:170-173 | the bytes taken from PADDING are exactly the padding of section 3.1 for every length |
| Md5Context.Context.Final | external/md5-c/md5c.c:159-183 | the digest is the one of RFC 1321 for everything absorbed, and the context is zeroed |
| Md5Context.DigestOfChunks | external/md5-c/md5c.c:101-184 | for every way of cutting a message into update calls the digest is that of the whole message |
| Md5Context.ShortChunksAbsorbable | external/md5-c/md5c.c:117-154 | inputs of at most 2^32 - 64 bytes meet the condition under which the block loop does not wrap |
| ClusterLink.FrameAlignment | modules/gadgeteer/gadget/NetworkManager.cpp:396-513 | a packet is dispatched at most once, unchanged, in the wait numbered by the end blocks sent before it, and before that wait is over |
| ClusterProcess.ActKeepsView | modules/gadgeteer/gadget/NetworkManager.cpp:301-336 | every action of one process keeps the end-block counts of all its links equal to what its program counter says |
| ClusterProcess.ActKeepsCounters | modules/gadgeteer/cluster/ClusterManager.cpp:367-413 | every action keeps the completed calls and the cork of a process those of its program: preDraw and postPostFrame cork always and call update only with a plugin |
| ClusterProcess.ActDecreases | modules/gadgeteer/gadget/NetworkManager.cpp:301-336 | every action lowers the rank of the process plus the packets it has in flight |
| Cluster.RunKeepsInv | modules/gadgeteer/gadget/NetworkManager.cpp:301-336 | it holds after every interleaving of any length |
| Cluster.BarrierSafety | modules/gadgeteer/gadget/NetworkManager.cpp:311-336 | when a slave has returned from barrier k, every slave has entered it and the master has dispatched an end block for it from every slave, although end blocks carry no number |
| Cluster.SkewBound | modules/gadgeteer/gadget/NetworkManager.cpp:301-336 | completed calls of master and slave differ by at most 1, of two slaves by at most 2, and by at most 1 if all calls are barriers |
| Cluster.FramesAligned | modules/gadgeteer/gadget/NetworkManager.cpp:396-513 | in every run every packet in the history of a connection, in either direction, is dispatched once, in order, in the wait numbered by the end blocks before it and no other |
| ClusterDelivery.SentIsHanded | modules/gadgeteer/gadget/Node.cpp:172-194 | that history is what the steps of the run have handed over: for each connection the Data packets of the plugins with their contents, and the end blocks with the value of the operation that sent them (2 for preDraw, 3 for postPostFrame, 0 for barriers) |
| ClusterDelivery.PacketsArrive | modules/gadgeteer/gadget/NetworkManager.cpp:396-513 | so every packet handed over is dispatched unchanged, in order, in its own frame, and once the receiver has completed that call it has been dispatched |
| ClusterDelivery.AllArrived | modules/gadgeteer/gadget/NetworkManager.cpp:396-513 | in a completed run everything handed over before the last end block has been dispatched |
| ClusterDelivery.MasterCanHand | modules/gadgeteer/cluster/ClusterManager.cpp:376-380 | a plugin of the master that has packets left can hand any packet to any slave in any reachable state |
| ClusterDelivery.SlaveCanHand | modules/gadgeteer/cluster/ClusterManager.cpp:376-380 | likewise a plugin of a slave to the master |
| ClusterDelivery.OutMoves | modules/gadgeteer/gadget/Node.cpp:162-194 | what is handed to a corked connection stays back until it is uncorked and then goes out in order; on an open one it goes out at once |
| ClusterDelivery.InMoves | modules/gadgeteer/gadget/Node.cpp:196-287 | receiving takes the first packet under way, nothing else does |
| ClusterDelivery.KernelCallsAre | modules/vrjuggler/vrj/Kernel/Kernel.cpp:519-626 | the calls of the kernel loop are two barriers, then in each frame update 2, the swap barrier and update 3, as far as there are plugins and a swap lock |
| Cluster.Progress | modules/gadgeteer/gadget/NetworkManager.cpp:301-336 | until every process is at the end of the program or waits in the first barrier reached with a cork in place, some process has a step that is not a plugin sending |
| Cluster.StepDecreases | modules/gadgeteer/gadget/NetworkManager.cpp:301-336 | a measure on remaining sends, queued packets and remaining calls falls with every step |
| Cluster.Termination | modules/gadgeteer/gadget/NetworkManager.cpp:301-336 | no run is longer than the measure of its initial state |
| Cluster.CorkedWaits | modules/gadgeteer/cluster/ClusterManager.cpp:367-413 | a process waits behind a cork exactly in a barrier the program reaches with a cork in place; with a plugin there is none |
| Cluster.Outcome | modules/gadgeteer/gadget/NetworkManager.cpp:301-336 | every run that cannot go on has stopped with all processes at the same operation: the end of the program, or else the first barrier reached with a cork in place |
| Cluster.NeverPast | modules/gadgeteer/cluster/ClusterManager.cpp:367-413 | no process ever gets past that operation, in any run |
| Cluster.CanRest | modules/gadgeteer/gadget/NetworkManager.cpp:301-336 | from wherever a run has got to, it can be continued until all processes are there |
| Cluster.NothingLeftOver | modules/gadgeteer/gadget/NetworkManager.cpp:301-336 | in a completed run every end block sent has been read, as many as calls, on every link |
| Cluster.CompletesIff | modules/gadgeteer/cluster/ClusterManager.cpp:367-413 | every run that cannot go on has completed the program if and only if there are no slaves, or a plugin, or no barrier comes after a preDraw or postPostFrame without a direct update in between |
| Cluster.KernelCompletesIff | modules/vrjuggler/vrj/Kernel/Kernel.cpp:519-626 | with slaves, the control loop of the kernel is completed by every such run if and only if there is a plugin, no software swap lock, or no frame |
| NetworkNodes.ReadFrameIs | modules/gadgeteer/gadget/NetworkManager.cpp:432-461 | for every state of a node: reading gives exactly its next frame if and only if there is a socket and an end block comes before any failure; it shuts the node down if and only if there is no socket or a packet is unreadable; otherwise the call does not go on |
| NetworkNodes.ReadEndIs | modules/gadgeteer/gadget/NetworkManager.cpp:432-461 | exactly when reading ends the call by an assertion, by an exception nobody catches, or never |
| NetworkLoop.Node.ReadUntilUpdated | modules/gadgeteer/gadget/NetworkManager.cpp:432-461 | the loop with its exception handler does that |
| NetworkLoop.NetworkManager.SendEndBlocks | modules/gadgeteer/gadget/NetworkManager.cpp:354-394 | every connected node gets one end block, in node order, and they are counted; one on which sending fails is shut down and not counted, one that is not connected is skipped |
| NetworkLoop.NetworkManager.SetNoPush | modules/gadgeteer/gadget/NetworkManager.cpp:675-694 | corking and uncorking get as far as the first node without a socket, which they dereference |
| NetworkCalls.EndBlockGoesOut | modules/gadgeteer/gadget/NetworkManager.cpp:362-391 | what sendEndBlocks does to a node in any state, field by field |
| NetworkCalls.EndBlocksCounted | modules/gadgeteer/gadget/NetworkManager.cpp:354-394 | the number it returns is the number of connected nodes on which sending succeeds |
| NetworkCalls.EndBlocksInOrder | modules/gadgeteer/gadget/NetworkManager.cpp:354-394 | exactly those nodes are sent an end block, in the order of the list, and exactly those that refuse are shut down |
| NetworkCalls.CorkKeepsBack | modules/gadgeteer/gadget/Node.cpp:162-165 | corking changes nothing else; what is sent on a corked node goes out when it is uncorked, in order and behind what was held back |
| NetworkCalls.CorksAll | modules/gadgeteer/gadget/NetworkManager.cpp:675-694 | the cork of every node in front of the first one without a socket is set or cleared, the others are as they were |
| NetworkLoop.NetworkManager.UpdateReported | modules/gadgeteer/gadget/NetworkManager.cpp:424-467 | the loop over one report, lost nodes and repetitions included, is the fold of its visits; a node that is lost is counted as well |
| NetworkLoop.NetworkManager.UpdateAllNodes | modules/gadgeteer/gadget/NetworkManager.cpp:396-471 | for every state of the nodes and every sequence of reports, time-outs and exceptions the loops end as the specification function says |
| NetworkWait.WaitedIs | modules/gadgeteer/gadget/NetworkManager.cpp:396-471 | that wait returns if and only if, after some of the reports, nothing has gone wrong and exactly numNodes visits have counted |
| NetworkWait.WaitedAt | modules/gadgeteer/gadget/NetworkManager.cpp:396-471 | a wait that returned has stopped at the first such report, and has read exactly the next frame of the readable nodes visited by then |
| NetworkWait.WaitStops | modules/gadgeteer/gadget/NetworkManager.cpp:402-461 | a wait that neither returns nor waits on has stopped at the first exception of the reactor or the first node that stops it, and in which way |
| NetworkWait.TallyCount | modules/gadgeteer/gadget/NetworkManager.cpp:424-467 | a node that can be read counts once, a lost one as often as it is visited |
| NetworkLoop.NetworkManager.Update | modules/gadgeteer/gadget/NetworkManager.cpp:301-309 | the method ends as the specification function says, and returns exactly under the condition of the next row |
| NetworkCalls.UpdateReturnsIff | modules/gadgeteer/gadget/NetworkManager.cpp:301-309 | update dereferences a missing socket if and only if some node has none or loses it while the end block is sent; it returns if and only if that does not happen and the visits that count reach the number of end blocks sent |
| NetworkCalls.UpdateOfSound | modules/gadgeteer/gadget/NetworkManager.cpp:301-309 | while no connection is lost it returns if and only if every node is reported; then end blocks went to all nodes, then all was uncorked, then each node was read, once, by exactly one frame |
| NetworkCalls.UpdateNeverReturns | modules/gadgeteer/gadget/NetworkManager.cpp:402-467 | one connection that fails while it is read, and its handle reported again together with another node: completed_nodes passes numNodes and, in a build without assertions, no further report ends the call |
| NetworkCalls.OvershotNeverEnds | modules/gadgeteer/gadget/NetworkManager.cpp:402-467 | once more visits have counted than are waited for, no continuation of the reports ends the wait |
| NetworkLoop.NetworkManager.Barrier | modules/gadgeteer/gadget/NetworkManager.cpp:311-336 | the method ends as the specification function says, and returns exactly under the conditions of the next two rows |
| NetworkCalls.MasterReturnsIff | modules/gadgeteer/gadget/NetworkManager.cpp:317-323 | the master returns if and only if the visits that count reach the number of all nodes, connected or not |
| NetworkCalls.SlaveReturnsIff | modules/gadgeteer/gadget/NetworkManager.cpp:324-329 | a slave returns if and only if they reach the number of end blocks sent |
| NetworkCalls.MasterOfSound | modules/gadgeteer/gadget/NetworkManager.cpp:317-323 | while no connection is lost the master returns if and only if every node is reported; it has read one frame of each before it sends any end block |
| NetworkCalls.SlaveOfSound | modules/gadgeteer/gadget/NetworkManager.cpp:324-329 | likewise on a slave, which sends first |
| NetworkCalls.MasterSendsLast | modules/gadgeteer/gadget/NetworkManager.cpp:317-329 | whatever becomes of the wait, the master sends no end block before it has returned, a slave has sent all before it begins |
| NetworkCalls.MasterReadsAllIff | modules/gadgeteer/gadget/NetworkManager.cpp:448-466 | a barrier the master returned from has read a frame of every node if and only if no visit failed |
| NetworkCalls.MasterWaitsForLost | modules/gadgeteer/gadget/NetworkManager.cpp:317-323 | with a lost node the master does not return while only readable nodes are reported |
| NetworkCalls.MasterReturnsUnread | modules/gadgeteer/gadget/NetworkManager.cpp:416-466 | with a lost node reported once and then nothing but time-outs the master returns without having read anything from anybody, for any number of nodes, in a build without assertions |
| WaitAgreement.WaitTakesFrames | modules/gadgeteer/gadget/NetworkManager.cpp:396-471 | in whatever order a waiting process picks its nodes, the completed wait has taken exactly the next frame of every link |
| WaitAgreement.AgreesWithLoop | modules/gadgeteer/gadget/NetworkManager.cpp:396-471 | that is what the method for updateAllNodes does to a node, so state machine and loop read the same packets |
| CallAgreement.UpdateRun | modules/gadgeteer/gadget/NetworkManager.cpp:301-309 | update as a whole, with the sends, the uncorking and the reads in the order of the method, is a run of the state machine from entering the call to its completion |
| CallAgreement.MasterRun | modules/gadgeteer/gadget/NetworkManager.cpp:317-323 | so is barrier on the master |
| CallAgreement.SlaveRun | modules/gadgeteer/gadget/NetworkManager.cpp:324-329 | so is barrier on a slave |
| Reactor.ReportedIff | modules/gadgeteer/gadget/Reactor.cpp:62-87 | a node is reported if and only if its own handle has an event |
| Reactor.ReportedOnce | modules/gadgeteer/gadget/Reactor.cpp:62-87 | a report names no node twice, unless a node has two handles |
| Reactor.ReadyInOrder | modules/gadgeteer/gadget/Reactor.cpp:76-84 | the nodes are reported in the order of the selector |
| Reactor.ReactorObject.AddNode | modules/gadgeteer/gadget/Reactor.cpp:36-47 | the handle is entered once; a handle already known keeps its node; the selector watches exactly the handles of the table |
| Reactor.ReactorObject.RemoveNode | modules/gadgeteer/gadget/Reactor.cpp:49-60 | the handle disappears from table and selector |
| Reactor.ReactorObject.GetReadyNodes | modules/gadgeteer/gadget/Reactor.cpp:62-87 | the nodes behind the handles with an event, in the selector's order, or none when nothing happened |
| ReactorReports.VisitedIff | modules/gadgeteer/gadget/Reactor.cpp:62-87 | over any number of selects a node is visited if and only if its own handle has had an event; time-outs add nothing |
| ReactorReports.CallsReturnIff | modules/gadgeteer/gadget/NetworkManager.cpp:396-412 | while no connection is lost, update and both barriers return if and only if every handle has an event before a select raises an exception other than a time-out |
| Packets.HeaderBack | modules/gadgeteer/cluster/Packets/Header.cpp:105-148 | a parsed header holds the fields that were written, in the order on the wire |
| PacketLayout.WireLayout | modules/gadgeteer/cluster/Packets/Header.cpp:105-126 | where every field of each of the four packets lies on the wire, by literal position, byte order, code and type number |
| PacketLayout.EndBlockOnWire | modules/gadgeteer/cluster/Packets/EndBlock.cpp:47-90 | an end block is fourteen bytes and repeats the two low bytes of its frame number |
| PacketLayout.ReceivesBy | modules/gadgeteer/gadget/Node.cpp:196-287 | for every byte stream: fewer than twelve bytes are waited for, other codes than 400 and other types than the four are refused, and else as many bytes are taken as the header announces |
| Packets.BodyBack | modules/gadgeteer/cluster/Packets/DeviceAck.cpp:87-136 | parsing a serialised payload gives all transmitted fields of each of the four packets and leaves nothing |
| Packets.ReceiveSent | modules/gadgeteer/gadget/Node.cpp:172-287 | receiving a sent packet gives its type, frame number and fields and consumes exactly its bytes |
| Packets.PrefixBlocks | modules/gadgeteer/gadget/Node.cpp:196-284 | a packet of which only a part has arrived is waited for |
| Packets.StreamRoundTrip | modules/gadgeteer/gadget/Node.cpp:172-287 | any sequence of packets followed by part of one more is received as exactly that sequence, the part left over |
| Packets.UniqueDecoding | modules/gadgeteer/cluster/Packets/Header.cpp:105-148 | different packet sequences have different byte streams |
| Packets.DeliveryIrrelevant | modules/gadgeteer/gadget/Node.cpp:196-287 | cutting any byte stream into deliveries at any place changes nothing about what is received |
| Packets.SurvivesIffFits | modules/gadgeteer/cluster/Packets/Header.cpp:105-108 | a packet survives sending and receiving if and only if its size, header included, is below 2^32 |
| Packets.OverrunsIff | modules/vapor/vpr/IO/BufferObjectReader.h:405-415 | for every payload and packet type, exactly when parsing reads past the end: by the length alone for EndBlock and Data, by the announced string lengths too for Config and DeviceAck |
| Packets.ReceiveOverrunsIff | modules/gadgeteer/gadget/Node.cpp:196-287 | for every byte stream, exactly when that happens to a receiver |
| Packets.OverrunIsReached | modules/vapor/vpr/IO/BufferObjectReader.h:405-415 | a header announcing an end block of one byte, and that byte, is such an input |
| Packets.AnnouncedIsSerialised | modules/gadgeteer/cluster/Packets/DeviceAck.cpp:54-68 | the length computed in the constructor is the serialised one for Config, DeviceAck and EndBlock, and for Data exactly while the object has no bytes (modulo 2^32) |
| PacketObjects.PacketObject.Config | modules/gadgeteer/cluster/Packets/ConfigPacket.cpp:40-56 | the new packet holds its frame, and serialising did not change the announced length |
| PacketObjects.PacketObject.DeviceAck | modules/gadgeteer/cluster/Packets/DeviceAck.cpp:41-72 | likewise |
| PacketObjects.PacketObject.EndBlock | modules/gadgeteer/cluster/Packets/EndBlock.cpp:47-65 | likewise; the body keeps the low 16 bits of the frame number, the header all 32 |
| PacketObjects.PacketObject.SerializeConfig | modules/gadgeteer/cluster/Packets/ConfigPacket.cpp:68-79 | the buffer is one header and the payload, whatever it held before, and the header length is the announced one |
| PacketObjects.PacketObject.SerializeDeviceAck | modules/gadgeteer/cluster/Packets/DeviceAck.cpp:87-113 | likewise |
| PacketObjects.PacketObject.SerializeEndBlock | modules/gadgeteer/cluster/Packets/EndBlock.cpp:78-90 | likewise |
| PacketObjects.PacketObject.SerializeData | modules/gadgeteer/cluster/Packets/DataPacket.cpp:77-93 | after any number of earlier serialisations the buffer holds exactly one header, the ids and this object, and the header length follows |
| PacketObjects.PacketObject.ParseConfig | modules/gadgeteer/cluster/Packets/ConfigPacket.cpp:81-87 | the fields are those of the payload; when reading failed, what was read in front of the failure is in its fields and the others are as before |
| PacketObjects.PacketObject.ParseDeviceAck | modules/gadgeteer/cluster/Packets/DeviceAck.cpp:115-136 | likewise, down to the parts of a GUID whose reading fails midway |
| PacketObjects.PacketObject.ParseEndBlock | modules/gadgeteer/cluster/Packets/EndBlock.cpp:94-100 | likewise |
| PacketObjects.PacketObject.ParseData | modules/gadgeteer/cluster/Packets/DataPacket.cpp:95-106 | likewise, and the bytes of the object stay unread in the buffer |
| PacketLayout.ConfigPartly | modules/gadgeteer/cluster/Packets/ConfigPacket.cpp:81-87 | for every payload, complete or not: the value of both fields after parse, by position |
| PacketLayout.DeviceAckPartly | modules/gadgeteer/cluster/Packets/DeviceAck.cpp:115-136 | likewise for the six fields, a GUID that ends midway included |
| PacketLayout.DataPartly | modules/gadgeteer/cluster/Packets/DataPacket.cpp:95-106 | likewise |
| PacketObjects.SocketNode.Send | modules/gadgeteer/gadget/Node.cpp:172-194 | as many bytes go out as the header says |
| PacketObjects.SocketNode.RecvPacket | modules/gadgeteer/gadget/Node.cpp:196-287 | for every byte stream: the packet and the remaining bytes, or waiting, or the error the code raises |
| InputLog.DestutterIsChanges | modules/gadgeteer/gadget/InputLogger.cpp:503-541 | for an equivalence, comparing with the last entry kept drops exactly the entries equal to their own predecessor |
| InputLog.NoStutterLeft | modules/gadgeteer/gadget/InputLogger.cpp:524-541 | no two neighbours of a compressed log are equal |
| InputLog.DestutterIdempotent | modules/gadgeteer/gadget/InputLogger.cpp:503-541 | compressing twice changes nothing more |
| InputLog.KeptUnlessEqual | modules/gadgeteer/gadget/InputLogger.cpp:503-541 | for any comparison an entry is kept unless it, as the left operand, equals the last one kept |
| InputLog.StampsSurvive | modules/gadgeteer/gadget/InputLogger.cpp:503-541 | no stamp is lost, their order is kept, each marks a sample equivalent to the one it marked, and a well-formed log stays so |
| InputLog.NextKeepsInv | modules/gadgeteer/gadget/InputLogger.cpp:136-177 | every frame, load and play keeps the log well formed and the playback position on a sample |
| InputLog.RunNeverTrips | modules/gadgeteer/gadget/InputLogger.cpp:136-177 | in any run of recording, loading well-formed logs and playing, no frame trips an assertion |
| InputLog.RecordingIsSession | modules/gadgeteer/gadget/InputLogger.cpp:136-177 | a recording holds one sample per frame, each preceded by the stamp of that frame if there was one |
| InputLog.SessionIsRecorded | modules/gadgeteer/gadget/InputLogger.cpp:154-167 | a recorded log starts and ends with a sample and has no two stamps in a row |
| InputLog.BeatsAreSamples | modules/gadgeteer/gadget/InputLogger.cpp:428-485 | splitting a well-formed log into samples with their stamps covers every sample once, in order |
| InputLog.PlaysOnePerFrame | modules/gadgeteer/gadget/InputLogger.cpp:428-485 | k frames into playback exactly k samples were shown, the stamp behind the k-th is active, and the logger is inactive exactly after the last |
| InputLog.PlaysWholeLog | modules/gadgeteer/gadget/InputLogger.cpp:324-345 | after the frames left to sleep through, playback takes as many frames as there are samples and shows all of them |
| InputLog.IdleFrame | modules/gadgeteer/gadget/InputLogger.cpp:136-177 | a frame without the start button changes nothing in an inactive logger, stamp button or not |
| InputLog.IdleFrames | modules/gadgeteer/gadget/InputLogger.cpp:136-177 | any number of frames slept through or idle only count down the sleep |
| InputLog.OnlyPlaybackShows | modules/gadgeteer/gadget/InputLogger.cpp:136-177 | no other frame than one of playback shows anything or changes stamp and position |
| InputLog.PlayStarts | modules/gadgeteer/gadget/InputLogger.cpp:324-345 | play sets position and stamp back and starts unless the log is empty; all else stays |
| InputLog.RecordThenPlay | modules/gadgeteer/gadget/InputLogger.cpp:136-177 | record, stop, wait any number of frames, play: the devices are shown the compressed recording, sample by sample |
| InputLog.LoadThenPlay | modules/gadgeteer/gadget/InputLogger.cpp:284-345 | load, wait any number of frames, play: the devices are shown the samples of the file |
| InputLog.MalformedTrips | modules/gadgeteer/gadget/InputLogger.cpp:428-437 | playing a log that is not well formed trips the sample assertion |
| InputLog.TripsIffMalformed | modules/gadgeteer/gadget/InputLogger.cpp:428-437 | playback trips an assertion if and only if the log is not well formed |
| InputLogger.LoggerObject.Process | modules/gadgeteer/gadget/InputLogger.cpp:136-177 | one frame of the state machine, buttons before samples, nothing while sleeping |
| InputLogger.LoggerObject.StopRecording | modules/gadgeteer/gadget/InputLogger.cpp:205-247 | the log is compressed, the logger inactive for ten frames |
| InputLogger.LoggerObject.Play | modules/gadgeteer/gadget/InputLogger.cpp:324-345 | playback starts at the first node, or not at all on an empty log |
| InputLogger.LoggerObject.PlayNextSample | modules/gadgeteer/gadget/InputLogger.cpp:428-485 | one sample is shown, the stamp behind it taken along, and the end recognised |
| InputLogger.LoggerObject.CompressSamples | modules/gadgeteer/gadget/InputLogger.cpp:503-550 | erasing in place equals recursive removal of repetitions |
| ClockTolerance.BoundedErrorAccepted | modules/gadgeteer/cluster/ClusterDelta.cpp:145-153 | an error of k bits is accepted as soon as k * 2^n is at most 3^n, so a bound on the error bounds the rounds |
| ClockTolerance.AnyErrorAccepted | modules/gadgeteer/cluster/ClusterDelta.cpp:145-153 | no 64-bit error is rejected twelve times |
| ClockTolerance.LargeErrorRejected | modules/gadgeteer/cluster/ClusterDelta.cpp:145-153 | that bound is exact: errors of 2^58 and more are still rejected at the eleventh try |
| ClockTolerance.ToleratedIff | modules/gadgeteer/cluster/ClusterDelta.cpp:145-153 | an error of 2^k is tolerated after n rejections if and only if k is below 1.5^n |
| ClockTolerance.SmallerTolerated | modules/gadgeteer/cluster/ClusterDelta.cpp:145-148 | with an error all smaller ones are tolerated |
| ClusterDelta.OffsetBound | modules/gadgeteer/cluster/ClusterDelta.cpp:102-125 | the offset is the true one, modulo 2^64, up to half the measured round trip rounded up, for any two clocks of equal rate |
| ClusterDelta.ErrorComputed | modules/gadgeteer/cluster/ClusterDelta.cpp:128-143 | the error is the true one unless the expected time lies across the turn of the clock, and then its complement to 2^64 |
| ClusterDelta.MeasuredFields | modules/gadgeteer/cluster/ClusterDelta.cpp:102-127 | what a round leaves in every field of the connector, for all clocks |
| ClusterDelta.JudgedFields | modules/gadgeteer/cluster/ClusterDelta.cpp:128-156 | and in those of the client |
| ClusterDelta.AcceptedBound | modules/gadgeteer/cluster/ClusterDelta.cpp:145-148 | an accepted round is within the tolerance plus the gap between estimated latency and actual delay, turn or not |
| ClusterSync.RunKeepsInv | modules/gadgeteer/cluster/ClusterDelta.cpp:50-74 | in every run both sides are in one of the joint states of a round, with the values that belong to it |
| ClusterSync.OneMessageInFlight | modules/gadgeteer/cluster/ClusterDelta.cpp:175-189 | at most one message is in flight and has exactly the size its receiver reads next |
| ClusterSync.OneSideMoves | modules/gadgeteer/cluster/ClusterDelta.cpp:50-74 | until both are done exactly one side can move |
| ClusterSync.Termination | modules/gadgeteer/cluster/ClusterDelta.cpp:50-74 | every run ends within twelve rounds, whatever the clocks and delays; its length tells the number of rejections |
| ClusterSync.Agreement | modules/gadgeteer/cluster/ClusterDelta.cpp:50-74 | both sides leave their loops in the same round and both have accepted |
| ClusterSync.OffsetReturned | modules/gadgeteer/cluster/ClusterDelta.cpp:62-74 | the offset a finished run returns obeys both bounds |
| ClusterDeltaLoop.TwelveRoundsAccept | modules/gadgeteer/cluster/ClusterDelta.cpp:50-61 | the client accepts within twelve rounds, whatever bytes and clock readings come |
| ClusterDeltaLoop.RoundTogether | modules/gadgeteer/cluster/ClusterDelta.cpp:50-74 | when each side receives what the other sends, one pass through both loop bodies is one measurement and its judgement, both sides hold the same verdict, and they stay connected |
| ClusterDeltaLoop.Synchronised | modules/gadgeteer/cluster/ClusterDelta.cpp:50-74 | then both loops make the same number of rounds, every byte sent is read, and the offset is the true one modulo 2^64 up to half the last round trip, and within the tolerance of the last round |
| ClusterDeltaLoop.TalkConnects | modules/gadgeteer/cluster/ClusterDelta.cpp:50-74 | for all clocks and delays of twelve rounds there are such byte streams |
| ClusterDeltaLoop.NewSidesSynchronise | modules/gadgeteer/cluster/ClusterDelta.cpp:50-74 | hence two new objects synchronise, whatever the clocks and delays |
| ClusterDeltaObject.DeltaObject.GetClusterDelta | modules/gadgeteer/cluster/ClusterDelta.cpp:62-74 | the offset returned is that of the connector loop of `ClusterDeltaLoop.Synchronised`, and the object ends in its state |
| ClusterDeltaObject.DeltaObject.ClientClusterDelta | modules/gadgeteer/cluster/ClusterDelta.cpp:50-61 | the object ends in the state of the client loop of that lemma |
| UuidV1.FormatInjective | external/leach-uuid/uuid/uuid.c:79-92 | two UUIDs of one node are equal exactly when times agree modulo 2^60 and clock sequences modulo 2^14 |
| UuidV1.FieldsBack | external/leach-uuid/uuid/uuid.c:79-92 | time, clock sequence and node can be read off the fields; the version is 1 and the variant that of RFC 4122 |
| UuidV1.CompareIsTotalOrder | external/leach-uuid/uuid/uuid.c:258-275 | comparison is zero exactly on equal UUIDs, antisymmetric and transitive |
| UuidV1.CompareIsNumeric | external/leach-uuid/uuid/uuid.c:258-275 | the result is -1, 0 or 1 as the first UUID, read as a number of 128 bits, is the smaller one, the same or the larger one |
| UuidV1.FirstCall | external/leach-uuid/uuid/uuid.c:41-75 | whatever state file there was, after the first call the saved state is that of the call |
| UuidV1.FirstSequence | external/leach-uuid/uuid/uuid.c:56-65 | the first call takes the saved clock sequence, one further if the clock is behind the saved time, or a random one if there is no file or another node saved it |
| UuidV1.NextCall | external/leach-uuid/uuid/uuid.c:41-75 | every later call advances the clock sequence exactly when the clock went backwards |
| UuidV1.SequenceCountsBackSteps | external/leach-uuid/uuid/uuid.c:41-75 | over any run the clock sequence counts the steps back, modulo 2^16 |
| UuidV1.SameUuidIff | external/leach-uuid/uuid/uuid.c:41-92 | two calls of a run return the same UUID if and only if their times agree modulo 2^60 and the steps back between them are a multiple of 2^14 |
| UuidV1.AllDistinct | external/leach-uuid/uuid/uuid.c:41-92 | readings below 2^60 that change between calls and fewer than 2^14 steps back: all UUIDs of the process differ |
| UuidV1.RepeatedReadingCollides | external/leach-uuid/uuid/uuid.c:152-181 | two calls at the same clock reading return the same UUID, because the reading is never remembered |
| UuidV1.LastSave | external/leach-uuid/uuid/uuid.c:126-145 | the file holds the state after one of the calls, and all later ones came less than ten seconds after that one |
| UuidV1.RestartIsOneRun | external/leach-uuid/uuid/uuid.c:104-122 | a process that finds the last state of an earlier one returns the UUIDs that one would have returned |
| UuidV1.DistinctAcrossRestart | external/leach-uuid/uuid/uuid.c:41-145 | if the earlier process saved its last call, the UUIDs of both differ under the bound on the steps back of both together |
| UuidV1.RestartRepeatsIff | external/leach-uuid/uuid/uuid.c:41-145 | in general, exactly when a later process repeats a UUID of an earlier one, for any call the file may hold |
| UuidGenerator.SpinOnZeros | external/leach-uuid/uuid/uuid.c:163-180 | while the clock reads zero the count of 1024 is used up, one a call, and then zeros are skipped |
| UuidGenerator.UuidObject.GetCurrentTime | external/leach-uuid/uuid/uuid.c:152-181 | the loop on the static variables, for any readings |
| UuidGenerator.UuidObject.UuidCreate | external/leach-uuid/uuid/uuid.c:41-75 | one call is one step of the run at its clock reading; the readings and random numbers used up are counted, that of the first random seed included |
| SoundTable.DoRespectsSame | modules/sonix/snx/SoundImplementation.h:432-435 | entries that only a lookup created cannot be told from missing ones by any later command |
| SoundTable.DefaultSound | modules/sonix/snx/SoundInfo.h:65-84 | what a sound nobody has configured reads as, field by field |
| SoundTable.ReadsBackLastWrite | modules/sonix/snx/SoundImplementation.h:204-293 | a sound reads back as its last setter, configure or remove left it, whatever else happened |
| SoundTable.SetReadsBack | modules/sonix/snx/SoundImplementation.h:107-273 | each of the seven setters: the field it names holds the value and every other field of the sound is as before, read back after any commands about other sounds |
| SoundTable.ListenerReadsBack | modules/sonix/snx/SoundImplementation.h:302-305 | the last position of the listener reads back after any other commands |
| SoundTable.SettingsReadBack | modules/sonix/snx/SoundImplementation.h:350-353 | so do the last settings of the API |
| Sonix.Implementation.BindAll | modules/sonix/snx/SoundImplementation.cpp:85-93 | on a started implementation every alias is bound and the table is unchanged |
| Sonix.Implementation.UnbindAll | modules/sonix/snx/SoundImplementation.cpp:95-103 | on a started implementation nothing stays bound; the table is unchanged |
| Sonix.SonixObject.Impl | modules/sonix/snx/sonix.cpp:276-286 | there is an implementation, created and started if need be, with the same table |
| Sonix.SonixObject.Perform | modules/sonix/snx/sonix.cpp:91-261 | every call of the interface has the effect of one command on the plain table and leaves one started implementation |
| Sonix.SonixObject.ChangeAPI | modules/sonix/snx/sonix.cpp:176-223 | for every name and every outcome of starting: one implementation is left, new, started, with all aliases bound and the same table |
| Sonix.Run | modules/sonix/snx/sonix.cpp:176-286 | after any run, failed switches included, every sound reads as one never-switched default-valued table says, and one started implementation exists |

## Left out

- NetworkLoop.NetworkManager.UpdateAllNodes: what arrives on each socket, and whether sending on it fails, is given before the call; where the reports run out the method returns instead of waiting on.
- NetworkCalls.OvershotNeverEnds: the counter of completed nodes is an integer; its wrap-around after 2^64 visits is not modelled.
- CallAgreement.UpdateRun: for calls in which no connection is lost, as the state machine has no failures.
- NetworkLoop.NetworkManager.UpdateReported: which plugin handles a packet, and what it does with it, is not modelled.
- Cluster.Outcome: for failure-free runs; all processes follow the same program with the same plugins, registered beforehand, links are reliable and FIFO, and plugins send finitely many packets.
- Cluster.CompletesIff: the operating system's time limit on corked output is not modelled.
- Packets.ReceiveSent: strings are shorter than 2^32 bytes, since `writeString` does not end on longer ones.
- Packets.BodyBack: the plugin id of a Config packet is a constant of its class and not transmitted; that of an EndBlock is not transmitted either.
- PacketObjects.SocketNode.RecvPacket: I/O errors of the socket are not modelled; a read that has too few bytes waits.
- InputLog.RunNeverTrips: `load` with a malformed file is covered by `InputLog.TripsIffMalformed` instead; `play` and `load` are assumed to be called only when the logger is inactive, as their assertions demand.
- ClockTolerance.Below: the tolerance is the exact number 2^(1.5^n), compared exactly; rounding of `float` and of the 64-bit error converted to it is not modelled.
- ClusterSync.RunKeepsInv: a synchronisation lasts less than 2^62 microseconds, and so does each round in `ClusterDeltaLoop.Synchronised`.
- UuidV1.AllDistinct: no other process writes the state file, and the file can be written.
- UuidGenerator.UuidObject.UuidCreate: clock readings are not zero; `UuidGenerator.UuidObject.GetCurrentTime` covers zero readings too.
- Sonix.Implementation.Bind: loading a sound is taken to succeed; a device keeps to the internal fields of its table when binding and unbinding.
- Sonix.SonixObject.Set: one method passes on all setters and `trigger`; `unpause`, `clear` and `step` are not modelled.
- Sonix.SonixObject.ChangeAPI: the name reported afterwards is not modelled, since copying overwrites it; an API registered under the name `stub` is the stub.
- Reactor.ReactorObject.GetReadyNodes: event masks and the time-out of `select` are parameters; that a handle whose socket was closed may be given to a new one is not modelled.
- `Node`'s status values other than connected, its mutexes and its statistics; `sendToAll`; exceptions of `setNoPush`.
- Connecting, listening, retries, hostname resolution and exits in `NetworkManager`.
- Plugin loading, configuration elements and version checks.
- XML reading and writing and device serialisation in the input logger; limiting the frame rate.
- `uuid_create_from_name` and the node identifier file.
- Sound playback itself, listener geometry and the device plugins.
- Printing, profiling and progress bars.
