# The byte paths of zape, modelled and proved in Dafny

This project models the parts of zape in which bytes, memory and callbacks have to be kept in order, and
proves what they promise for all inputs, all runs and all answers of the kernel:

- the **outgoing byte path** of a plain TCP client socket of libapenetwork: direct writes, the job list
  with its packet rings, gather writes under short writes, EAGAIN and EINTR, queued shutdowns, the memory
  limit, and disposal;
- the **slot pools** that hold jobs and packets: growing, rotating in place, and the destroy pass that
  rethreads a list before it frees it;
- **WebSocket framing** (RFC 6455, sections 5.2 and 5.3): the frame parser that works byte by byte, the
  frame writer, and both on top of the byte path;
- **timers**: a doubly linked list that is walked while callbacks change it, and the time the loop waits;
- the **end of sockets**: deferred destruction through timers, with callbacks that call back;
- the **hash table** with its chains and its list, and the **latin-1/UTF-8** conversions.

Code that changes things in place is modelled by classes over linked slots, arrays and fields. Each method
is proved to do what a transition on values does, and the results are proved of these transitions, for
whole runs.

| files | what they hold |
|---|---|
| `Pool.dfy`, `PacketRing.dfy`, `JobList.dfy` | slots, lists of blocks, the destroy pass; packet queues; job lists |
| `Stream.dfy`, `SocketClass.dfy`, `SocketFree.dfy`, `EventLoop.dfy` | one socket: transitions, the object, its disposal, the event loop |
| `StreamRuns.dfy`, `StreamTraces.dfy`, `StreamInputs.dfy`, `StreamTheorems.dfy`, `StreamOutcomes.dfy`, `Fleet.dfy` | invariants, traces of calls, conditions on the input, results for whole runs and for single operations, many sockets |
| `Framing.dfy`, `WsParser.dfy`, `WsWriter.dfy`, `WsSession.dfy`, `WsClass.dfy`, `WsState.dfy`, `WsEndToEnd.dfy` | RFC 6455; parser, writer and both together; the objects; end to end |
| `Timers.dfy`, `TimerTheorems.dfy`, `TimerCalls.dfy`, `TimerList.dfy` | timers: transitions, results for whole runs, for single calls and for deferred callbacks, the object |
| `Lifecycle.dfy`, `HashTable.dfy`, `Latin1.dfy` | the end of sockets; the hash table; the conversions |
| `Options.dfy`, `Seqs.dfy` | what several modules share |

The kernel is a list of answers to `write` and `writev`: it takes some number of bytes, or says EAGAIN or
EINTR, or fails; when the list is used up it says EAGAIN for ever, so that EINTR comes finitely often. The
clock is a list of increments. A callback is a finite list of API calls, which may be any; callbacks of
timers and of on_disconnect may create timers and sockets with callbacks of their own.

## Findings

What the code does is modelled as it is written. In these places it does not do what one would expect:

- **A short direct write offers the kernel too much** (`ape_socket.c:778`): `r_bytes` is never reduced, so
  after a write that took part of the data, `len` bytes are offered again from further on. For any caller
  this is harmless, whatever the kernel does, if and only if the memory ends where the data ends or there
  is at most one byte (`StreamInputs.TightExact`, `StreamTheorems.WriteExact`); for other calls it is
  harmless if the kernel does not take more right after a short write (`StreamInputs.MildCalls`). Inputs
  that go wrong: `StreamTheorems.StrayByte`, and for the header of a WebSocket frame
  `WsEndToEnd.HeaderOverrun`.
- **Frames beyond 32 bits have no header** (`websocket.zig:148-153`): `WsWriting.WritevOffers`.
- **Unmasked frames are misread** (`websocket.zig:265`, `:317`): one with an extended length is ended after
  two bytes, and the payload of one with a 7-bit length is xored with a stale key: `WsParsing.FrameExact`.
- **No close frame is ever sent** (`websocket.zig:171-172`): `closed` is set before the write:
  `WsSessions.CloseOnce`.
- **The wait can be much too long** for a timer that is more than 23 days late
  (`ape_timers_next.c:202-203`), exactly beyond `TimerTheorems.LATEST`: `WaitLate`, `WaitTooLate`. Timers
  that are created in a pass do not shorten its wait: `NewTimersNotCounted`, `NewTimerWaits`. It is counted
  from the clock reading after the last callback that asked to be called again (`TimerCalls.CountedFrom`), so
  that time spent in callbacks that return 0 after it is waited once more: `TimerCalls.StaleWait`.
- **Conversions to and from UTF-8 lose buffers of 2 GiB** (`ape_buffer.c:362`, `:402`): the round trip
  works if and only if the UTF-8 form is shorter than that: `Latin1.RoundTrip`.

## Model

| member | source | states |
|---|---|---|
| Pools.PoolList.constructor | pkg/libapenetwork/src/ape_pool.c:47-59 | a new list is one block of n empty slots, with `current` at the first |
| Pools.PoolList.Grow | pkg/libapenetwork/src/ape_pool.c:93-104 | a fresh block is linked behind the tail; the order of the other slots and `current` stay, and the tail pointer is right |
| Pools.PoolList.HeadToQueue | pkg/libapenetwork/src/ape_pool.c:61-71 | the head becomes the last slot, the order of the others stays, and `current` stays on its slot |
| Pools.PoolList.HeadToCurrent | pkg/libapenetwork/src/ape_pool.c:73-91 | the head is moved right behind `current` and becomes it; the order of the others and the tail pointer stay right |
| Pools.PoolList.Push | pkg/libapenetwork/src/ape_pool.c:197-209 | `current` is filled and steps on, with a fresh block of 8 when it was the last slot |
| Pools.DestroyWithCleaner | pkg/libapenetwork/src/ape_pool.c:139-174 | for any list made of whole blocks, in whatever order its slots are: the pass ends, cleans every slot once in list order, then frees every block once and nothing else, and never touches a freed slot |
| Pools.HeadsBackSet | pkg/libapenetwork/src/ape_pool.c:139-165 | the slots threaded together so far are the distinct block heads passed, and none of those still to be visited |
| PacketRings.PacketRing.Add | pkg/libapenetwork/src/ape_socket.c:1021-1040 | the ring is a FIFO queue whose filled slots are the run from the head to `current`: a packet goes to its end, and a spare slot is left, across any reuse |
| PacketRings.PacketRing.Gather | pkg/libapenetwork/src/ape_socket.c:889-900 | the iovec holds the first packets of the queue, at most 1024, in order |
| PacketRings.PacketRing.Consume | pkg/libapenetwork/src/ape_socket.c:917-945 | after n bytes have gone out, exactly the packets that are finished leave the queue and are released in order, and the first one left starts n bytes further on |
| JobLists.JobList.HeadToCurrent | pkg/libapenetwork/src/ape_socket.c:996-999 | rotating the job list moves the finished job behind `current` and keeps all other jobs in order |
| Sockets.Socket.Write | pkg/libapenetwork/src/ape_socket.c:701-795 | on the object, with its linked slots, a write leaves exactly the state, wire, counts and freed buffers of the transition `Stream.Write` |
| Sockets.Socket.GetSlot | pkg/libapenetwork/src/ape_socket.c:1306-1327 | the job slot that is handed out, and the grown job list, are those of `Stream.GetSlot` |
| Sockets.Socket.QueueData | pkg/libapenetwork/src/ape_socket.c:1005-1056 | copying, queueing, counting and the limit end as in `Stream.QueueData` |
| Sockets.Socket.DoJobs | pkg/libapenetwork/src/ape_socket.c:822-1003 | draining the job list, with its nested loops, ends and ends as in `Stream.DoJobs`, whatever the kernel answers |
| Sockets.Socket.ShutdownQueued | pkg/libapenetwork/src/ape_socket.c:430-456 | a shutdown is queued behind pending data, done at once, or ignored, as in `Stream.ShutdownQueued` |
| StreamOutcomes.WriteRejected | pkg/libapenetwork/src/ape_socket.c:707-711 | an empty write, or one on a socket that is not online, returns -1 and changes nothing but that an AUTORELEASE buffer is released |
| StreamOutcomes.WriteBusy | pkg/libapenetwork/src/ape_socket.c:713-717 | while something is queued or WOULD_BLOCK is set, a write returns len, sends nothing, and its bytes are at the end of the queue |
| StreamOutcomes.WriteDone | pkg/libapenetwork/src/ape_socket.c:755-795 | when the answers up to some point accept len bytes, 0 is returned, exactly the bytes taken are on the wire, nothing is queued, and an AUTORELEASE buffer is released |
| StreamOutcomes.WriteBlocked | pkg/libapenetwork/src/ape_socket.c:755-795 | when they accept fewer and then comes EAGAIN, len is returned, WOULD_BLOCK is set, and exactly the bytes not taken are at the end of the queue |
| StreamOutcomes.WriteFailed | pkg/libapenetwork/src/ape_socket.c:755-795 | when they accept fewer and then comes EINTR or an error, -1 is returned, the connection is shut down with one timer that disposes of it, the queue is as before, and an AUTORELEASE buffer is released |
| StreamOutcomes.ShutdownNowEnds | pkg/libapenetwork/src/ape_socket.c:478-495 | an immediate shutdown leaves no socket up: one online is shut down with the fd, one not yet connected is offline, and there is exactly one timer that disposes of it |
| StreamOutcomes.ShutdownQueuedEnds | pkg/libapenetwork/src/ape_socket.c:430-456 | a shutdown does the same unless something is to be sent; then all that is queued stays queued, with a SHUTDOWN job behind the head job |
| StreamOutcomes.HangupEnds | pkg/libapenetwork/src/ape_socket.c:1212-1304 | a read that hits the end leaves no socket up, and returns -1 exactly if on_read has not shut it down |
| StreamOutcomes.JobsOutcome | pkg/libapenetwork/src/ape_socket.c:822-1003 | how draining ends goes with the last answer of the kernel and with what was queued: 0 and WOULD_BLOCK after EAGAIN, -1 and shut down after an error, 1 once all is sent, and -1 at a queued shutdown, with all bytes before it on the wire |
| StreamOutcomes.GatherOutcome | pkg/libapenetwork/src/ape_socket.c:889-945 | one writev offers the first 1024 packets; an answer of n bytes puts the first n of theirs on the wire and leaves the rest queued and counted, and flushing goes on from there |
| StreamOutcomes.DrainOutcome | pkg/libapenetwork/src/ape_events_loop.c:88-107 | a writable event on an online socket makes the calls of on_drain if and only if it finishes the one WRITEV job |
| EventLoops.PlayOut | pkg/libapenetwork/src/ape_events_loop.c:67-129 | a new socket object taken through any run ends in the state that the transitions lead to, so that all results about runs hold of it |
| SocketDisposal.Free | pkg/libapenetwork/src/ape_socket.c:555-579 | destroying the job list and the packet lists releases what `Stream.Free` says, takes the bytes off the global count, and frees every block of the job list |
| SocketDisposal.PlayAndFree | pkg/libapenetwork/src/ape_socket.c:528-579 | after any run and disposal of the object, each buffer that it was to free has been freed once, no other one, and the global count is back |
| StreamRuns.AnyRun | pkg/libapenetwork/src/ape_socket.c:822-1056 | the invariant over all runs: job list shape, order of wire and queue, byte counts, one owner per buffer |
| StreamTheorems.StreamRefinement | pkg/libapenetwork/src/ape_socket.c:701-795 | whatever is called, with writes that are tight or a kernel that is steady: the wire is a prefix of the accepted writes in call order, wire and queue together are all of them while the connection is up, and the wire is all of them when the head job is inactive |
| StreamTheorems.WriteExact | pkg/libapenetwork/src/ape_socket.c:755-780 | the next write keeps the wire a prefix, whatever the kernel is going to answer, if and only if it is rejected, queued or tight |
| StreamInputs.TightExact | pkg/libapenetwork/src/ape_socket.c:755-780 | the write loop takes no more than len bytes against every kernel if and only if nothing can be read behind them or there is at most one |
| StreamInputs.MildCalls | pkg/libapenetwork/src/ape_socket.c:755-780 | against a kernel that does not take more right after a short write, writes up to the size it is steady for are never overrun in any run |
| StreamTheorems.StrayByte | pkg/libapenetwork/src/ape_socket.c:778 | a write of two bytes of which three get onto the wire |
| StreamTheorems.GracefulShutdown | pkg/libapenetwork/src/ape_socket.c:430-456 | no byte accepted after the first shutdown that was asked for online is ever sent, and the fd is not shut down while the connection is up |
| StreamTheorems.GracefulEnd | pkg/libapenetwork/src/ape_socket.c:956-1000 | with no limit, failure, hangup or immediate shutdown, a connection that is no longer up was shut down with exactly the bytes on the wire that were accepted before the shutdown was asked for |
| StreamInputs.CalmInput | pkg/libapenetwork/src/ape_socket.c:763-780 | the conditions of GracefulEnd follow from the answers, events and calls that are given, when EINTR does not occur |
| StreamTheorems.NoLostWakeup | pkg/libapenetwork/src/ape_events_loop.c:67-107 | whenever the loop goes back to polling, an online socket has WOULD_BLOCK set if and only if its head job is active, and if and only if something is queued |
| StreamTheorems.DrainOnlyWhenEmpty | pkg/libapenetwork/src/ape_events_loop.c:88-107 | on_drain is called only when no byte is queued |
| StreamTheorems.ByteAccounting | pkg/libapenetwork/src/ape_socket.c:1042-1053 | after any run the socket's count is the sum of len - offset over its queued packets, and an online socket with a limit does not exceed it |
| Fleets.TotalExact | pkg/libapenetwork/src/ape_socket.c:528-536 | total_memory_buffered is the sum of the bytes queued on all sockets not yet freed, however the lives of any number of sockets are interleaved |
| StreamTheorems.Ownership | pkg/libapenetwork/src/ape_socket.c:87-100 | after any run and disposal, the buffers freed are exactly the AUTORELEASE buffers handed over and the copies made, each once |
| StreamTheorems.CallerBuffers | pkg/libapenetwork/src/ape_socket.c:707-711 | a caller's buffer is freed once for each time it was handed over as AUTORELEASE, so never as STATIC, GLOBAL_STATIC, OWN or COPY |
| StreamInputs.ScopedCopied | pkg/libapenetwork/src/ape_socket.c:1012-1019 | a queued packet never refers to the memory of a STATIC or COPY write: it holds a copy, or a buffer that was handed over for longer |
| Framing.DecodeEncode | src/websocket.zig:239-334 | RFC 6455 section 5.2 as a reference: decoding undoes encoding, for all three length forms, masked and unmasked |
| Framing.EncodeDecode | src/websocket.zig:239-334 | encoding undoes decoding, so that the reference decoder accepts nothing else |
| Framing.DecodePrefix | src/websocket.zig:239-334 | the frames decoded from the beginning of a stream are the first of those decoded from all of it |
| WsParsing.ParserSafe | src/websocket.zig:239-334 | whatever byte arrives, the index fields stay in the ranges of their types, and in step_data fewer bytes than the length are held and data_inkey is their number mod 4 |
| WsParsing.OrIsPlus | src/websocket.zig:272 | the shifted byte meets only zero bits of the length read so far |
| WsParsing.ParserExact | src/websocket.zig:239-334 | for every stream whose frames are masked, or unmasked with a 7-bit length, the parser delivers exactly the frames of the reference decoder, in order; unmasked payloads come xored with the key left over |
| WsParsing.MaskedStream | src/websocket.zig:239-334 | any list of masked frames with the beginning of another one behind it, cut into chunks at will, gives one message per frame, in order, with the unmasked payload |
| WsParsing.FrameExact | src/websocket.zig:253-269 | one frame comes out right if and only if it is masked, or its length takes 7 bits and the stale key bytes it meets are zero |
| WsStates.WebSocketState.ReadByte | src/websocket.zig:241-332 | the switch over the parsing steps changes the fields, with the key in its array, as `WsParsing.Feed` says, within the ranges of their types |
| WsStates.WebSocketState.EndMessage | src/websocket.zig:340-387 | delivering, closing or answering a message leaves parser, connection and socket as `WsSessions.React` says |
| WsStates.WebSocketState.ProcessData | src/websocket.zig:239-334 | the object ends as `WsSessions.Receive` says, and has made exactly its calls on the socket |
| WebSockets.WriteInt | src/websocket.zig:144-150 | writing an integer into the header array is RFC 6455's network byte order |
| WebSockets.WebSocketClient.Writev | src/websocket.zig:107-164 | unless closed, the calls on the socket are those of `WsWriting.WritevCalls`; when closed, none |
| WebSockets.WebSocketClient.ShutDown | src/websocket.zig:166-174 | close shuts the socket down once and writes nothing |
| WsWriting.ShortestForm | src/websocket.zig:133-153 | no valid frame with the same payload has a shorter form of the length, as section 5.2 of RFC 6455 asks |
| WsWriting.ServedExact | src/websocket.zig:107-164 | there is one frame that is final, unmasked, has that opcode and payload and no valid shorter form |
| WsWriting.WritevOffers | src/websocket.zig:107-164 | the bytes that writev asks to send are that one frame with the pieces joined, if and only if their total fits in 32 bits |
| WsWriting.CallsOffer | src/websocket.zig:107-190 | any sequence of calls asks to send exactly the frames of those before the first close: opcode as given, 9 for ping and 10 for pong, the payload, and the shortest length form |
| WsSessions.Deliveries | src/websocket.zig:340-387 | for masked frames in any chunks, on_message is handed the payload of each frame of opcode 0, 1 or 2, in order, binary exactly for opcode 2 and finished exactly for the first octets 0x80, 0x81 and 0x82; the calls on the socket are those of its replies, of a pong for each opcode 9 and of a close for each opcode 8, in the order of the frames that cause them |
| WsSessions.CloseOnce | src/websocket.zig:166-174 | close, by either side, is one shutdown and the last thing that happens to the socket |
| WsEndToEnd.EndToEnd | src/websocket.zig:107-164 | a decoder at the other end finds the first of the frames written, exactly and in order, however a steady kernel splits the writes, and all of them once everything is sent |
| WsEndToEnd.BuffersCopied | src/websocket.zig:107-190 | no queued packet ever refers to the header on the stack or to the buffer of the parser, which are overwritten |
| WsEndToEnd.HeaderOverrun | src/websocket.zig:107-164 | an empty text frame of which a zero byte too many gets onto the wire |
| WsEndToEnd.PongEcho | src/websocket.zig:340-387 | for any masked input in any chunks, what the other end decodes are pongs with exactly the payloads of the pings before the first close, in order |
| TimerTheorems.EveryLife | pkg/libapenetwork/src/ape_timers_next.c:134-204 | over all runs every timer's history is legal: created, run only while not cleared, removed or done, and removed once, for a reason, if and only if it is off the list; no run is early, and its schedule is the end of its wait |
| TimerTheorems.LegalLog | pkg/libapenetwork/src/ape_timers_next.c:324-344 | a legal history has one removal if the timer is gone and none otherwise, no run after a clear, a removal or a callback that returned 0, and no removal without one of these or a call of APE_timer_destroy |
| TimerTheorems.PassKeeps | pkg/libapenetwork/src/ape_timers_next.c:134-187 | a pass ends and runs each timer at most once, none created in it, none cleared before, and all whose schedule is at most 150000 ns ahead and that are not taken away |
| TimerTheorems.Refire | pkg/libapenetwork/src/ape_timers_next.c:149-166 | no timer runs early: the first run comes at least the milliseconds asked for after the creation, less 150000 ns, and each later one that long after the run before, with the milliseconds its callback has returned last, -1 meaning as before |
| TimerTheorems.Schedules | pkg/libapenetwork/src/ape_timers_next.c:149-166 | after every run each timer on the list is scheduled for its creation or last run plus those milliseconds, modulo 2^64 |
| TimerTheorems.PollWait | pkg/libapenetwork/src/ape_timers_next.c:182-203 | the wait is what is left, rounded, until the earliest schedule of the timers that were there and still are, or of one that has gone since, at least the floor, and the floor when that time is over |
| TimerTheorems.WaitLate | pkg/libapenetwork/src/ape_timers_next.c:202-203 | the wrapped and truncated difference clamps to the floor for a timer that is late by up to LATEST |
| TimerTheorems.WaitTooLate | pkg/libapenetwork/src/ape_timers_next.c:202-203 | one nanosecond beyond LATEST the wait is the largest int |
| TimerTheorems.NewTimersNotCounted | pkg/libapenetwork/src/ape_timers_next.c:137-193 | a pass that keeps no timer of those it found waits for the resolution, whatever was created meanwhile |
| TimerCalls.StaleWait | pkg/libapenetwork/src/ape_timers_next.c:149-203 | a pass after which a timer is to run in 5 ms, and the loop waits for 10 |
| TimerCalls.CreateExact | pkg/libapenetwork/src/ape_timers_next.c:419-451 | a new timer has a new identifier, is protected, and is scheduled ms milliseconds after the clock reading; no other timer changes |
| TimerCalls.ClearExact | pkg/libapenetwork/src/ape_timers_next.c:267-280 | clearing marks exactly the timer of that identifier, if it is unprotected or forced |
| TimerCalls.DestroyExact | pkg/libapenetwork/src/ape_timers_next.c:324-351 | destroying takes exactly that timer off the list |
| TimerCalls.PassCounted | pkg/libapenetwork/src/ape_timers_next.c:224-244 | the deferred callbacks waiting when a pass begins are called in it, first and in the order of their list |
| TimerCalls.EveryAsync | pkg/libapenetwork/src/ape_timers_next.c:224-244 | over all runs each deferred callback has been called once, or is waiting and has not been called |
| TimerLists.TimerList.CreateTimer | pkg/libapenetwork/src/ape_timers_next.c:419-451 | a new node is linked in front and the list object is as `Timers.CreateTimer` says |
| TimerLists.TimerList.ClearTimer | pkg/libapenetwork/src/ape_timers_next.c:267-280 | the flag is set for the timer of that identifier only, and only if it is unprotected or forced |
| TimerLists.TimerList.DestroyNode | pkg/libapenetwork/src/ape_timers_next.c:324-344 | the node is unlinked in both directions and freed, the others stay in order, and the node behind it is returned |
| TimerLists.TimerList.Process | pkg/libapenetwork/src/ape_timers_next.c:134-204 | the walk along the linked list, while callbacks change it, touches live nodes only and ends as `Timers.Pass` says |
| TimerLists.Play | pkg/libapenetwork/src/ape_timers_next.c:134-204 | any run on a new list object ends as the transitions say, so that the results hold of it |
| Lifecycles.EverySocket | pkg/libapenetwork/src/ape_socket.c:506-615 | over all runs, with callbacks that re-enter: on_disconnect is called once if and only if the socket is offline, a socket is freed at most once and never before, and one that is ending has exactly one timer pending that disposes of it |
| Lifecycles.BatchKeeps | pkg/libapenetwork/src/ape_events_loop.c:43-144 | nothing is freed while the events of a poll are walked, so that each socket they refer to is there when its turn comes |
| Lifecycles.FireKeeps | pkg/libapenetwork/src/ape_socket.c:555-602 | the timers that dispose of a socket find it unfreed, and it is freed once they have run |
| Lifecycles.ShutdownNowEnds | pkg/libapenetwork/src/ape_socket.c:478-526 | an immediate shutdown of a socket that has not ended leaves a client that is up shut down, and any other socket offline with on_disconnect called once, and a timer pending that disposes of it |
| Lifecycles.CallsEnd | pkg/libapenetwork/src/ape_socket.c:430-495 | a shutdown with nothing left to send and a failing write do just that |
| Lifecycles.CallsSpare | pkg/libapenetwork/src/ape_socket.c:430-495 | a shutdown with data pending, a write that goes well and any such call on a socket that has ended change nothing |
| Lifecycles.EventsEnd | pkg/libapenetwork/src/ape_events_loop.c:67-129 | a hangup, a fatal error or queued shutdown when writable, and a failed connect end the socket |
| Lifecycles.EndedFreed | pkg/libapenetwork/src/ape_socket.c:555-602 | in every reachable state, a socket that has ended, or ends in a round, is freed by that round if it runs all pending timers |
| Lifecycles.DelayEnds | pkg/libapenetwork/src/ape_socket.c:458-473 | when the timer of a delayed shutdown runs and nothing is left to send, the socket ends |
| HashTables.TableIsMap | pkg/libapenetwork/src/ape_hash.c:101-205 | after any appends and erases a lookup gives what a mathematical map gives, and a key is held once |
| HashTables.NewestFirst | pkg/libapenetwork/src/ape_hash.c:101-143 | the list through all items is in reverse order of first insertion |
| HashTables.OnOneChain | pkg/libapenetwork/src/ape_hash.c:101-143 | every item is on the chain of its key modulo the size, once, and on no other |
| HashTables.HashTable.Append | pkg/libapenetwork/src/ape_hash.c:101-143 | chains and list agree afterwards, and hold the new or changed entry and the others as before |
| HashTables.HashTable.Erase | pkg/libapenetwork/src/ape_hash.c:146-186 | the entry is gone from chain and list, and nothing else |
| HashTables.HashTable.Seek | pkg/libapenetwork/src/ape_hash.c:188-205 | the value found along the chain is that of the only entry with the key, or NULL |
| HashTables.Play | pkg/libapenetwork/src/ape_hash.c:101-205 | any run on a new table object, and a look at it, gives what a map gives |
| Latin1.EncodedIsUtf8 | pkg/libapenetwork/src/ape_buffer.c:360-397 | the encoder writes the UTF-8 of RFC 3629 section 3 of the bytes as characters |
| Latin1.DecodedUtf8 | pkg/libapenetwork/src/ape_buffer.c:400-451 | the decoder reads all of UTF-8: a character below 256 becomes that byte, any other one a question mark |
| Latin1.DecodedCut | pkg/libapenetwork/src/ape_buffer.c:411-433 | a text that ends within a character gives one question mark for that |
| Latin1.RoundTrip | pkg/libapenetwork/src/ape_buffer.c:360-451 | there and back gives the same bytes if and only if their number and that of the bytes from 0x80 on together are below 2^31 |
| Latin1.ToUtf8 | pkg/libapenetwork/src/ape_buffer.c:360-397 | the loop over the array computes that encoding of what the int position sees, and ends it with a zero byte, within the memory it allocated |
| Latin1.FromUtf8 | pkg/libapenetwork/src/ape_buffer.c:400-451 | on any bytes the loop ends, reads nothing behind `used` and writes nothing behind its buffer, and computes that decoding |

## Left out

- SSL, UDP, DNS, accept and listen, socket options and the poll backends: calls into code outside the core; SSL is disabled in this build.
- SENDFILE jobs and APE_socket_writev: the first leave their type bits behind (`ape_socket.c:996`), so that two of them can part head and `current`; the Zig API issues neither.
- Counters and lengths are unbounded except where the code wraps or truncates them: the limit in bytes, timer arithmetic, the wait, frame lengths and the int positions of the UTF-8 loops.
- What is appended to the socket's input buffer: a read hands over nothing but the calls that on_read makes; a WebSocket chunk is the argument of process_data.
- Pools.DestroyWithCleaner: the cleaner is not called inside the pass; the payloads it would be given are returned in order, and cleaned by SocketDisposal.CleanAllJobs.
- ape_destroy_pool_ordered, which is not called, and the packet lists of inactive WRITEV jobs, which ape_socket_free leaks.
- The `close` of a fd, which events reach which socket, and TCP_CORK.
- Timers whose callbacks destroy the running timer, or asyncs that destroy the first timer while the pass has it at hand: the code would then read freed memory; such calls are left out of a callback.
- What clearfunc does beyond being called, APE_async_destroy, del_async_all and timer statistics.
- Lifecycles.EverySocket: is about states, timers and callbacks on values; what a socket queues and the linked list of timers are in the other modules, and calls that name a freed socket are left out.
- The cleaner of a hash table, hashtbl_free and string keys: the comparison ignores case but the hash does not.
- The realloc that trims a converted buffer, and the branches of the encoder for characters beyond 0x7FF, which a byte cannot reach.
- Masking by a WebSocket client, which the source leaves open, the opening handshake and HTTP.
- WsParsing.MaskedStream: says nothing about unmasked frames; FrameExact says when they come out right.
- WsEndToEnd.EndToEnd: is not about a kernel that takes more right after part of a header, see HeaderOverrun.
