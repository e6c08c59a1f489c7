# Verified model of the recovery stream, the proxy data path and the completion protocols

This project models six stateful components in Dafny and proves what they promise, for every input
and every interleaving:

* **Journal recovery stream** (`Journal*.dfy`). A recovery finds the last checkpoint, pages through the
  blob store for the journals behind it, reads their blobs in parallel and hands their logs back in
  bounded batches, either with everything in memory or window by window. `JournalSpec` says what a
  recovery is meant to return; `JournalStream` is the stream with its cursor, window and buffers;
  `JournalRecovery` relates the two modes to each other and to the store; `JournalReads` is the
  counting protocol of the parallel reads as an interleaved step system.
* **Scatter-gather buffer and freelist** (`ByteChain`, `Buffer*.dfy`). A chain of fixed-size blocks with a
  two-phase append and a two-phase consume that may overlap. Locations (block, index) are separated
  from bytes: `ByteChain` is the layout of data and free space, `Buffer` the operations, `BufferBytes`
  and `BufferRuns` the refinement of a plain byte queue, `BufferPool` several buffers on one freelist.
* **SOCKS5 handshake** (`Socks5*.dfy`), sections 3 to 6 of RFC 1928: the server's incremental parser, its
  independence from how the bytes are cut into reads, exactly which inputs lead to which request, the
  whole outcome for every input and callback behaviour, and the conversations with the two clients.
* **Proxy bridge** (`Bridge*.dfy`): the forwarder between two sockets with back-pressure and half-close,
  its buffers tied to the buffer model and its start tied to the handshake.
* **Timed executor** (`Executor*.dfy`): scheduling, cancelling, stopping and the worker thread as an
  interleaved step system, and the critical sections as the code runs them.
* **Exactly-once completion** (`Http2Join`, `Http2Request`, `HttpClient`, `HttpConnection`): the HTTP/2
  server's join of authorization and body, and the HTTP/2 client's map of pending calls.

Objects the source updates in place are classes whose methods are proved against functions on values;
the promises are then lemmas about those functions. For the concurrent components a run is any sequence
of atomic steps, and the methods are proved to take such steps.

## Where the code departs from its intent

Each of these is modelled as the code behaves, with the exact condition.

* Windowed recovery ends early when a window ends in an empty blob and its logs came out in full batches:
  `JournalRecovery.ModesAgreeIff`, `JournalRecovery.EmptyJournalEndsStreamEarly`,
  `JournalRecovery.EmptyJournalExample`.
* A limit of zero journals still looks at one: `JournalRecovery.LimitKeptIff`,
  `JournalRecovery.ZeroLimitExample`.
* `ConnectionSucceed` reports success even when its reply could not be sent:
  `Socks5.UnsentSuccessIff`, `Socks5Clients.UnsentSuccessExample`.
* `Commit(0)` after `Reserve(0)` on a buffer without blocks trips an assert:
  `Buffer.BasicBuffer.ReserveThenCommitIff`, `Buffer.CommitWithoutBlockExample`.
* The second BIND reply has the length the session pool reads only for an IPv6 peer:
  `Socks5Clients.BindSecondExchangeIff`, `Socks5Clients.BindSecondExchangeFails`.
* A task accepted while the executor stops can stay in the queue forever: `ExecutorRuns.StrandsIff`,
  `ExecutorRuns.StrandedExample`.
* `Cancel` can answer true after the task has run: `ExecutorRuns.CancelPreventsIff`,
  `ExecutorRuns.CancelTooLateExample`.
* The executor's wait is computed from an earlier clock reading than the one it starts at, so its deadline
  can be late by that delay: `ExecutorRuns.DeadlineOnTimeIff`, `ExecutorRuns.LateDeadlineExample`.
* A connection that comes up while it is being stopped sets the ready flag again, and a call accepted
  afterwards is never finished: `HttpClient.StopStrandsIff`, `HttpClient.AcceptedAfterStopExample`.

## Model

| member | source | states |
|---|---|---|
| `JournalSpec.DecodeAtBoundary` | cc/core/journal_service/src/journal_input_stream.cc:840-860 | at every record boundary of a blob the header and then the body decode to that record, and the two lengths lead to the next boundary |
| `JournalSpec.ResumeSound` | cc/core/journal_service/src/journal_input_stream.cc:414-438 | resuming at the returned marker, or after the last name of a page without one, leaves exactly the names behind that page, and progress is made; an empty page without a marker means nothing is left |
| `JournalSpec.WindowedYieldIsPrefix` | cc/core/journal_service/src/journal_input_stream.cc:864-928 | what a windowed stream returns is a prefix of all logs, and all of them exactly when only empty blobs follow every stalling window |
| `JournalSpec.InFullBatchesIsMultiple` | cc/core/journal_service/src/journal_input_stream.cc:867-925 | logs come out in full batches only, if and only if their number is a multiple of the batch size |
| `JournalListing.ListCheckpoints` | cc/core/journal_service/src/journal_input_stream.cc:386-457 | for every legal paging of the listing, with or without markers, it ends with the highest checkpoint id, or the invalid id when there is none |
| `JournalListing.ScanPage` | cc/core/journal_service/src/journal_input_stream.cc:507-533 | one page adds its ids in range; when it stops the listing, the ids are those the whole remaining listing would have selected |
| `JournalListing.ListJournals` | cc/core/journal_service/src/journal_input_stream.cc:491-572 | for every legal paging the listing terminates with the selection from the whole listing |
| `JournalRecovery.PlannedFromWholeStore` | cc/core/journal_service/src/journal_input_stream.cc:491-572 | with a positive limit the journals read are the first ones of the store with ids in (covered, max]; what is covered is `RecoversFromCheckpoint` and `RecoversWithoutCheckpoint` |
| `JournalRecovery.PlannedAscendingWithoutGap` | cc/core/journal_service/src/journal_input_stream.cc:491-572 | their ids ascend, and no stored id between the covered ones and a selected one is skipped |
| `JournalRecovery.RecoversFromCheckpoint` | cc/core/journal_service/src/journal_input_stream.cc:302-351 | starting from the checkpoint the `last_checkpoint` blob names, or else the highest listed one: the journals read are the first ones behind the last journal that checkpoint has processed, up to the requested id, and all of them when the limit allows; the load-all result is the checkpoint's logs and then theirs, unless there are none and the checkpoint was not asked for; the last journal covered is the highest of them |
| `JournalRecovery.RecoversWithoutCheckpoint` | cc/core/journal_service/src/journal_input_stream.cc:440-449 | without a checkpoint they are the first ones of the store, and the result is their logs |
| `JournalRecovery.WindowsAreFull` | cc/core/journal_service/src/journal_input_stream.cc:634-667 | no window holds more journals than configured, and only the last one fewer |
| `JournalRecovery.LimitKeptIff` | cc/core/journal_service/src/journal_input_stream.cc:524-532 | the limit is kept if and only if it is positive or the first listed id is out of range |
| `JournalRecovery.ZeroLimitExample` | cc/core/journal_service/src/journal_input_stream.cc:524-532 | a limit of zero under which one journal is read |
| `JournalStream.JournalInputStream.TagsFollowFromWindow` | cc/core/journal_service/src/journal_input_stream.cc:785-821 | for every buffer of a loaded window the id lookup stays inside the id list and finds the blob the buffer was filled from, in both modes, with or without a checkpoint |
| `JournalStream.JournalInputStream.ProcessNextJournalLog` | cc/core/journal_service/src/journal_input_stream.cc:823-862 | takes exactly the next pending log, tagged with its own blob's id, stepping over used-up and empty buffers; none exactly when nothing is pending |
| `JournalStream.JournalInputStream.CollectLogs` | cc/core/journal_service/src/journal_input_stream.cc:867-891 | takes logs off the front of the pending ones until the batch is full or the buffers are used up |
| `JournalStream.JournalInputStream.ReleaseConsumed` | cc/core/journal_service/src/journal_input_stream.cc:893-917 | releases every passed buffer or drops a used-up window without changing what the stream still returns; buffers not yet passed keep their bytes |
| `JournalStream.JournalInputStream.ReadJournalLogBatch` | cc/core/journal_service/src/journal_input_stream.cc:864-928 | returns between one and a batch of logs off the front of what the stream yields, or reports the end exactly when it yields nothing more |
| `JournalStream.JournalInputStream.ReadJournalBlobs` | cc/core/journal_service/src/journal_input_stream.cc:621-701 | loads exactly the next window's journals behind what is loaded, or reports that none is left without changing anything |
| `JournalStream.JournalInputStream.Discover` | cc/core/journal_service/src/journal_input_stream.cc:187-351 | fails exactly when the `last_checkpoint` blob holds the invalid id or names a checkpoint that is not there, with that error; else finds the checkpoint in use, its covered journal and the journals to read, whatever the paging |
| `JournalStream.JournalInputStream.ReadLog` | cc/core/journal_service/src/journal_input_stream.cc:88-185 | the first call fails exactly when the checkpoint cannot be read; every other call, first or later, returns logs off the front of what the stream yields, or reports the end exactly when nothing more will come |
| `JournalStream.Recover` | cc/core/journal_service/src/journal_input_stream.cc:88-185 | reading until the end returns the windowed or load-all result for the store and ends with the last journal covered, or the error it cannot start with; what that result is, is `JournalRecovery.RecoversFromCheckpoint` and the rows about the two modes |
| `JournalRecovery.EachRecordOnce` | cc/core/journal_service/src/journal_input_stream.cc:823-862 | in the load-all result every record of every blob is at its own place, once, tagged with its blob's id |
| `JournalRecovery.ModesAgreeIff` | cc/core/journal_service/src/journal_input_stream.cc:864-928 | the windowed result is a prefix of the load-all result, and equal to it if and only if no logs follow a stalling window |
| `JournalRecovery.ModesAgreeOnNonEmptyJournals` | cc/core/journal_service/src/journal_input_stream.cc:88-185 | when every journal holds a log both modes return the same logs, for every window and batch size |
| `JournalRecovery.EmptyJournalEndsStreamEarly` | cc/core/journal_service/src/journal_input_stream.cc:902-925 | with one journal per window an empty first journal makes the windowed stream return nothing, whatever the second journal holds |
| `JournalRecovery.EmptyJournalExample` | cc/core/journal_service/src/journal_input_stream.cc:902-925 | such a store exists |
| `JournalReads.RunInv` | cc/core/journal_service/src/journal_input_stream.cc:644-700 | in every interleaving of the parallel reads the counter equals the reads not yet subtracted, filled slots hold their own journal, and the failure flag comes with an error recorded or about to be |
| `JournalReads.AtMostOneEnd` | cc/core/journal_service/src/journal_input_stream.cc:728-771 | no two actors bring the counter to zero |
| `JournalReads.EndMoment` | cc/core/journal_service/src/journal_input_stream.cc:728-771 | in every state of every interleaving, also while the issuer is still in its loop: from the step that brings the counter to zero on, every read is over, every successful slot holds its own journal, and the end carries the error of the first read that failed or, if none did, is the continuation with all slots filled |
| `JournalReads.RecordedIsFirst` | cc/core/journal_service/src/journal_input_stream.cc:671-688 | in every run the error recorded is the one of the first read that failed, at issue or in its callback |
| `JournalReads.ZeroEndsCall` | cc/core/journal_service/src/journal_input_stream.cc:689-771 | if the issuer brings the counter to zero it hands the error back; if a callback does, it finishes the context with the error, or continues when nothing failed |
| `JournalReads.ExactlyOneEnd` | cc/core/journal_service/src/journal_input_stream.cc:644-771 | when all is over exactly one actor has ended the call: with the error of the first read that was refused or failed, else by continuing with every slot filled with its own journal |
| `JournalReads.RunIsBounded` | cc/core/journal_service/src/journal_input_stream.cc:644-771 | no interleaving takes more steps than a number fixed at its start |
| `JournalReads.NeverStuck` | cc/core/journal_service/src/journal_input_stream.cc:644-771 | until all is over some step can be taken |
| `ByteChain.CommitCell` | cc/aws/proxy/src/buffer.h:214-226 | growing the first block with room by k bytes moves exactly the first k free locations to the end of the data |
| `ByteChain.DrainCell` | cc/aws/proxy/src/buffer.h:243-269 | shrinking the head by k bytes removes exactly the first k data locations and moves no free one |
| `ByteChain.SpaceArithmetic` | cc/aws/proxy/src/buffer.h:151-158 | block count times capacity, less data and head offset, is the number of free locations |
| `ByteChain.DataApartFromSpace` | cc/aws/proxy/src/buffer.h:165-301 | no location is both data and free space |
| `Buffer.Freelist.New` | cc/aws/proxy/src/freelist.h:35-48 | the first block of the list, or a fresh one when the list is empty; the list stays without repeats |
| `Buffer.Freelist.Delete` | cc/aws/proxy/src/freelist.h:51-58 | the block is at the front of the list |
| `Buffer.Freelist.DeleteChain` | cc/aws/proxy/src/freelist.h:61-76 | the whole chain, in order, is at the front of the list and the size has grown by its length |
| `Buffer.BasicBuffer.SpaceSizeIsExact` | cc/aws/proxy/src/buffer.h:151-158 | the computed space size is the number of free locations |
| `Buffer.BasicBuffer.AppendNewBlock` | cc/aws/proxy/src/buffer.h:305-320 | one empty block is added at the tail; pointers and counts stay right; no block is lost |
| `Buffer.BasicBuffer.StepperStart` | cc/aws/proxy/src/buffer.h:324-331 | the first block with room, or the end of the chain |
| `Buffer.BasicBuffer.Reserve` | cc/aws/proxy/src/buffer.h:165-185 | the pieces are exactly the first `size` free locations, in order; data and existing free locations stay where they are; the buffer is left without a block exactly if it had none and nothing was asked for |
| `Buffer.BasicBuffer.ReserveAtLeast` | cc/aws/proxy/src/buffer.h:187-211 | the pieces are the first free locations, `total` of them, with size <= total < size + capacity; the buffer is left without a block exactly if it had none and nothing was asked for |
| `Buffer.BasicBuffer.Commit` | cc/aws/proxy/src/buffer.h:214-226 | exactly the first `size` free locations become the end of the data; the rest stays free; no block moves; an outstanding peek stays a prefix of the data |
| `Buffer.BasicBuffer.CommitAllowed` | cc/aws/proxy/src/buffer.h:214-216 | within a reservation the asserts of a commit pass if and only if there is a block |
| `Buffer.BasicBuffer.CommitPassesIff` | cc/aws/proxy/src/buffer.h:214-217 | the three asserts of a commit are exactly what the contract of `Commit` requires |
| `Buffer.BasicBuffer.ReserveThenCommitIff` | cc/aws/proxy/src/buffer.h:165-226 | after a reserve, a commit of part of it passes its asserts if and only if something was reserved or the buffer had a block before |
| `Buffer.CommitWithoutBlockExample` | cc/aws/proxy/src/buffer.h:214-216 | a fresh buffer on which committing nothing after reserving nothing trips the assert |
| `Buffer.BasicBuffer.Peek` | cc/aws/proxy/src/buffer.h:229-241 | the pieces are exactly the locations of the data, in order |
| `Buffer.BasicBuffer.Drain` | cc/aws/proxy/src/buffer.h:243-269 | exactly the first `size` data locations are gone; with a reservation outstanding no free location moves or goes; pruned blocks are on the freelist; a buffer left without data and reservation starts its head block over |
| `Buffer.BasicBuffer.Destroy` | cc/aws/proxy/src/buffer.h:148-148 | all blocks of the buffer are on the freelist |
| `Buffer.PartitionKept` | cc/aws/proxy/src/freelist.h:35-76 | an operation that loses and invents no block keeps every allocated block in exactly one chain or on the freelist, for any number of buffers |
| `BufferPool.OperateOn` | cc/aws/proxy/src/buffer.h:165-269 | any operation the asserts allow on one of several buffers sharing a freelist keeps them all valid and every allocated block in exactly one place |
| `BufferPool.Run` | cc/aws/proxy/src/buffer.h:165-269 | the same over any run of operations |
| `BufferPool.DestroyOne` | cc/aws/proxy/src/buffer.h:148-148 | destroying one buffer gives back all its blocks, counts them, and leaves the other buffers in order |
| `BufferBytes.Fill` | cc/aws/proxy/src/buffer.h:165-211 | writing to a reservation changes no byte of the data and reads back |
| `BufferBytes.CopyIn` | cc/aws/proxy/src/buffer.h:273-283 | the contents are the old contents followed by the bytes |
| `BufferBytes.CopyOut` | cc/aws/proxy/src/buffer.h:285-301 | the bytes copied are the first ones of the contents, as many as asked for or all, and the rest stays |
| `BufferRuns.FirstInFirstOut` | cc/aws/proxy/src/buffer.h:165-301 | over every run of the queue, bytes consumed and bytes queued are, in order, the bytes appended; what is shown is the front of the queue |
| `BufferRuns.Run` | cc/aws/proxy/src/buffer.h:165-301 | every run of any caller that keeps to the asserts, with both kinds of reserve, of any size, overlapping commits, peeks and drains up to the whole queue, is a run of the queue: it reads what was shown, ends with the queue's bytes, and every room handed out is in the range its reserve promises |
| `Socks5.FillAddrPort` | cc/aws/proxy/src/protocol.cc:39-62 | 7 bytes for IPv4, 19 for IPv6, none for another family |
| `Socks5Clients.AddrPortRoundTrip` | cc/aws/proxy/src/protocol.cc:39-62 | the type, address and port bytes filled in are read back as that address and port, whatever follows them |
| `Socks5Clients.ReplyRoundTrip` | cc/aws/proxy/src/socks5_state.cc:35-66 | a final reply reads back as success with the socket's own address, or the peer's after a BIND, or as a general failure without address when it cannot be told |
| `Socks5Clients.BindReplyRoundTrip` | cc/aws/proxy/src/socks5_state.cc:254-262 | the first BIND reply reads back as success with the bound port |
| `Socks5Clients.PortsInNetworkOrder` | cc/aws/proxy/src/socks5_state.cc:242-262 | port bytes are in network order |
| `Socks5.Step` | cc/aws/proxy/src/socks5_state.cc:70-311 | every step keeps the byte count each state relies on, and each step that goes on raises the state's rank; what the steps amount to is `Socks5Outcomes.HandshakeOutcome` |
| `Socks5.Socks5State.Proceed` | cc/aws/proxy/src/socks5_state.cc:70-311 | the state, the replies and callback calls, the bytes left and the answer are those of one step, whose runs `Socks5Outcomes.HandshakeOutcome` fixes |
| `Socks5.Socks5State.Handle` | cc/aws/proxy/src/proxy_bridge.cc:67-85 | the handler runs the machine on all bytes buffered and received, terminates, and asks for more exactly when too few are left |
| `Socks5.Socks5State.ConnectionSucceed` | cc/aws/proxy/src/socks5_state.cc:313-332 | the new state, the reply made, the answer and whether the reply could be sent are those of `Conclude` |
| `Socks5.UnsentSuccessIff` | cc/aws/proxy/src/socks5_state.cc:327-331 | success is reported with an unsent final reply if and only if the handshake was waiting and sending that reply fails |
| `Socks5Clients.UnsentSuccessExample` | cc/aws/proxy/src/socks5_state.cc:327-331 | a whole handshake that ends so |
| `Socks5Fragments.StepAppend` | cc/aws/proxy/src/socks5_state.cc:70-311 | bytes behind those a step needs do not change the step and stay behind |
| `Socks5Fragments.RunLoopAppend` | cc/aws/proxy/src/proxy_bridge.cc:74-75 | running on a first part and then on the rest ends where running on everything does |
| `Socks5Fragments.DriveIsOneRun` | cc/aws/proxy/src/proxy_bridge.cc:67-85 | however the bytes are cut into reads, state, calls and unconsumed bytes are those of one run on all of them |
| `Socks5Fragments.FragmentationDoesNotMatter` | cc/aws/proxy/src/proxy_bridge.cc:67-85 | two ways of cutting the same bytes give the same outcome |
| `Socks5Requests.RequestIff` | cc/aws/proxy/src/socks5_state.cc:78-271 | a connect or bind request is made if and only if the greeting reply can be sent and the input begins with a supported handshake; it is then the one in the input, made once, and exactly the 2+n+4+6 or 2+n+4+18 bytes are consumed |
| `Socks5Outcomes.HandshakeOutcome` | cc/aws/proxy/src/socks5_state.cc:70-311 | the whole outcome for every input and every behaviour of the callbacks: nothing is sent before the greeting is complete; an unsent greeting reply, a refused connection, a refused bind and an unsent reply each end in failure with exactly the calls made by then; without a complete request the handshake has failed exactly if the input is malformed, and else waits for more bytes |
| `Socks5Clients.ClientConnect` | cc/aws/proxy/src/preload.cc:336-451 | nothing is received unless the address has an encoding and the whole message was sent; then the code is that of the replies and exactly their bytes are taken from the socket, however they arrive |
| `Socks5Clients.Socket.RecvAll` | cc/aws/proxy/src/preload.cc:289-309 | receives the bytes that come next, as many as asked for, through any pieces and interruptions; fewer only when the stream closes or breaks before |
| `Socks5Clients.ParseConnect` | cc/aws/proxy/src/preload.cc:336-395 | the client's message is a supported handshake for exactly its address, of exactly its length |
| `Socks5Clients.ConnectComposes` | cc/aws/proxy/src/preload.cc:336-451 | for every IPv4 or IPv6 address, whether the connection comes up at once or later: the server is asked for exactly that address and consumes exactly the client's message, and the bytes of all replies the server makes are accepted by the client, which takes exactly them |
| `Socks5Clients.FailureIsReported` | cc/aws/proxy/src/socks5_state.cc:57-65 | when the server cannot tell its address the client's call fails |
| `Socks5Clients.RefusalIsReported` | cc/aws/proxy/src/preload.cc:406-414 | any other beginning of the replies fails with the server's code, if it gave one |
| `Socks5Clients.ReceivesDomainReply` | cc/aws/proxy/src/preload.cc:420-422 | a reply with a domain name is taken whole, by the length it carries |
| `Socks5Clients.TruncatedReplyFails` | cc/aws/proxy/src/preload.cc:446-449 | nothing less than the whole reply is accepted |
| `Socks5Clients.ParseBind` | cc/aws/proxy/src/client_session_pool.cc:68-79 | the 13-byte request asks for exactly its port |
| `Socks5Clients.BindFirstExchange` | cc/aws/proxy/src/client_session_pool.cc:68-112 | the server consumes 13 bytes and answers with 12, in which the client finds success and the bound port |
| `Socks5Clients.BindSecondExchangeIff` | cc/aws/proxy/src/client_session_pool.cc:227-262 | the second reply has the 22 bytes the pool reads if and only if the accepted peer has an IPv6 address, which is then passed on with its port |
| `Socks5Clients.BindComposes` | cc/aws/proxy/src/client_session_pool.cc:205-262 | the whole BIND conversation: after the inbound connection the server sends one more reply, with the 22 bytes the pool reads exactly for an IPv6 peer, telling that peer's address and port |
| `Socks5Clients.BindSecondExchangeFails` | cc/aws/proxy/src/client_session_pool.cc:227-262 | with an IPv4 peer the reply has 10 bytes |
| `Bridge.ProxyBridge.ForwardTraffic` | cc/aws/proxy/src/proxy_bridge.cc:92-133 | the flags and queues of both directions are those of forwarding each direction on its own |
| `Bridge.ProxyBridge.ClientReadHandler` | cc/aws/proxy/src/proxy_bridge.cc:135-153 | completion of a client read, then forwarding; what that does is `BridgeClosing.CallMovesOn` |
| `Bridge.ProxyBridge.ClientWriteHandler` | cc/aws/proxy/src/proxy_bridge.cc:155-174 | completion of a client write, with the receive shutdown of the destination if it failed, then forwarding |
| `Bridge.ProxyBridge.DestReadHandler` | cc/aws/proxy/src/proxy_bridge.cc:176-194 | completion of a destination read, then forwarding; what that does is `BridgeClosing.CallMovesOn` |
| `Bridge.ProxyBridge.DestWriteHandler` | cc/aws/proxy/src/proxy_bridge.cc:196-214 | completion of a destination write, with the receive shutdown of the client if it failed, then forwarding |
| `Bridge.ForwardKeeps` | cc/aws/proxy/src/proxy_bridge.cc:92-133 | forwarding keeps the direction sound, leaves nothing possible undone, and does nothing when nothing is due |
| `Bridge.ReadDoneKeeps` | cc/aws/proxy/src/proxy_bridge.cc:135-153 | a completed read, with or without error, keeps the direction sound; what it does to the flags and the sink is `BridgeClosing.CallMovesOn` |
| `Bridge.WriteDoneKeeps` | cc/aws/proxy/src/proxy_bridge.cc:196-214 | a completed write, whole, partial or failed, keeps the direction sound |
| `Bridge.AlwaysSound` | cc/aws/proxy/src/proxy_bridge.cc:92-214 | in every reachable state, both ways: bytes delivered and queued are the bytes taken; outstanding operations are the open phases of the buffers; the queue holds at most kMaxBufferSize + kReadSize + capacity - 2 bytes; the sink was shut down once exactly if its source closed and everything was passed on, and was not written afterwards |
| `Bridge.NeverStalls` | cc/aws/proxy/src/proxy_bridge.cc:92-133 | a writable direction with queued bytes or a readable source has an operation outstanding |
| `Bridge.QuietMeansDelivered` | cc/aws/proxy/src/proxy_bridge.cc:92-214 | with nothing outstanding and no failed write all bytes were delivered and the sink was shut down once, last |
| `BridgeClosing.CallMovesOn` | cc/aws/proxy/src/proxy_bridge.cc:92-214 | every handler call, in both directions: the bytes read are queued and the bytes written are gone; a read that ends the stream closes the source, and shuts the sink down if nothing is queued; a failed write closes the sink and shuts the source; the last bytes of a closed source are followed by a shutdown; and exactly the operations that are due are outstanding afterwards |
| `BridgeClosing.FlagsTellTheRun` | cc/aws/proxy/src/proxy_bridge.cc:135-214 | over every run a direction is readable until its source has ended, and marked failed exactly if a write failed |
| `BridgeClosing.NoReadAfterClosing` | cc/aws/proxy/src/proxy_bridge.cc:94-123 | once the source has ended or the sink cannot be written, at most the outstanding read completes and none is issued |
| `BridgeClosing.HalfCloseIff` | cc/aws/proxy/src/proxy_bridge.cc:135-214 | in every reachable state the sink has been shut down, once, exactly when the source has ended and everything was passed on; the source was shut once exactly if a write failed |
| `BridgeHandshake.QuietRunDelivered` | cc/aws/proxy/src/proxy_bridge.cc:92-214 | after every run, a direction with nothing outstanding and no failed write has delivered every byte its source sent, in order, and then shut its sink down once |
| `BridgeBuffer.RunIsBufferRun` | cc/aws/proxy/src/proxy_bridge.cc:92-214 | every run of the bridge is, for each queue, a legal run of the buffer's first-in first-out reading, with rooms in the range `ReserveAtLeast` gives; at its end the buffer holds the queue, was given what came from the source and has given up what went to the sink |
| `BridgeHandshake.HandshakeHandsOver` | cc/aws/proxy/src/proxy_bridge.cc:67-85 | when the handshake waits for the destination no read is outstanding, its request is the one in the bytes sent, and buffered and unread bytes are everything behind its two messages |
| `BridgeHandshake.DeliversWhatFollows` | cc/aws/proxy/src/proxy_bridge.cc:57-224 | however the client's bytes are cut into reads, in every reachable state what the destination received, what is queued and what is unread are exactly the bytes behind the handshake |
| `Executor.NextKept` | cc/core/async_executor/src/single_thread_priority_async_executor.cc:85-193 | every step keeps the next timestamp at most every queued one |
| `Executor.WaitKept` | cc/core/async_executor/src/single_thread_priority_async_executor.cc:89-131 | every step keeps the wait within its bound and a worker that should look notified |
| `Executor.AlwaysInv` | cc/core/async_executor/src/single_thread_priority_async_executor.cc:85-193 | all invariants hold after every run of interleaved steps |
| `ExecutorRuns.WakesInTime` | cc/core/async_executor/src/single_thread_priority_async_executor.cc:89-131 | a sleeping worker has been notified or its deadline is at most a queued task's time, plus the delay between reading the clock and waiting; told to look, told to stop or past its deadline it does look |
| `ExecutorRuns.DeadlineOnTimeIff` | cc/core/async_executor/src/single_thread_priority_async_executor.cc:117-124 | the deadline of a worker not told to look again is exactly the next timestamp, or the clock reading if later, plus the delay between reading the clock and waiting; so it is on time if and only if there was no delay |
| `ExecutorRuns.LateDeadlineExample` | cc/core/async_executor/src/single_thread_priority_async_executor.cc:117-124 | a run in which a task due at 7 is waited for until 10 |
| `ExecutorRuns.PickedInOrder` | cc/core/async_executor/src/single_thread_priority_async_executor.cc:117-130 | in every run a task is picked at or after its time and when no waiting task was earlier |
| `ExecutorRuns.TasksConserved` | cc/core/async_executor/src/single_thread_priority_async_executor.cc:104-160 | every pushed task is in exactly one of queue, flight, executed, discarded, dropped; only cancelled ones are discarded, only Stop drops; the queue stays within its cap |
| `ExecutorRuns.StartsAtMostOnce` | cc/core/async_executor/src/async_task.h:58-66 | an operation starts at most once, and exactly for tasks executed or running |
| `ExecutorRuns.CancelPreventsIff` | cc/core/async_executor/src/async_task.h:58-79 | after a cancel that answered true the operation is never run, if and only if it had not started; only the first cancel answers true |
| `ExecutorStops.FirstCancelIff` | cc/core/async_executor/src/async_task.h:69-79 | in every run a cancel answers true if and only if it is the first of its task |
| `ExecutorRuns.CancelTooLateExample` | cc/core/async_executor/src/async_task.h:69-79 | a run in which cancel answers true for a task that has run |
| `ExecutorRuns.ExitMeansDrained` | cc/core/async_executor/src/single_thread_priority_async_executor.cc:108-115 | when the worker has left, every task pushed before has been executed, discarded as cancelled, or dropped as configured |
| `ExecutorStops.StopTakesEffect` | cc/core/async_executor/src/single_thread_priority_async_executor.cc:140-150 | Stop clears the running flag, wakes the worker, and drops every queued task if so configured, else none |
| `ExecutorStops.StaysStopped` | cc/core/async_executor/src/single_thread_priority_async_executor.cc:135-161 | the executor stays stopped and what was dropped stays dropped, over every run |
| `ExecutorStops.DroppedNeverRuns` | cc/core/async_executor/src/single_thread_priority_async_executor.cc:143-147 | over every run, a task queued when a dropping executor was stopped never starts |
| `ExecutorStops.KeptTasksAreDone` | cc/core/async_executor/src/single_thread_priority_async_executor.cc:104-131 | a task queued when a non-dropping one was stopped has been executed when the worker has left, unless it was cancelled |
| `ExecutorStops.LooksIff` | cc/core/async_executor/src/single_thread_priority_async_executor.cc:90-100 | the worker looks at the queue exactly when it is stopped, told to look, past the next timestamp, or past its deadline |
| `ExecutorStops.PicksIff` | cc/core/async_executor/src/single_thread_priority_async_executor.cc:108-131 | a top task is taken exactly when it is due; an empty queue makes the worker leave exactly when stopped |
| `ExecutorRuns.NothingRunsAfterExit` | cc/core/async_executor/src/single_thread_priority_async_executor.cc:169-193 | afterwards nothing runs, and at most the callers past the unlocked check can still push |
| `ExecutorRuns.StrandsIff` | cc/core/async_executor/src/single_thread_priority_async_executor.cc:172-184 | a task can be accepted and never looked at if and only if some caller is past the unlocked check when the worker leaves |
| `ExecutorRuns.StrandedExample` | cc/core/async_executor/src/single_thread_priority_async_executor.cc:172-184 | a run that strands a task |
| `ExecutorRuns.CanExit` | cc/core/async_executor/src/single_thread_priority_async_executor.cc:85-160 | from every state of a stopped executor the worker's own steps and the passing of time lead through the whole queue and out |
| `ExecutorThread.PriorityExecutor.Schedule` | cc/core/async_executor/src/single_thread_priority_async_executor.cc:176-192 | accepted exactly below the cap; the new state is the machine's |
| `ExecutorThread.PriorityExecutor.StopLocked` | cc/core/async_executor/src/single_thread_priority_async_executor.cc:140-150 | the new state is the machine's, which `ExecutorStops.StopTakesEffect` fixes |
| `ExecutorThread.PriorityExecutor.DiscardCancelled` | cc/core/async_executor/src/single_thread_priority_async_executor.cc:102-106 | only cancelled tasks go, by machine steps, until the top is not cancelled |
| `ExecutorThread.PriorityExecutor.Pass` | cc/core/async_executor/src/single_thread_priority_async_executor.cc:98-131 | between two waits the worker takes machine steps; it picks a due task than which none is earlier, or leaves exactly with an empty queue when stopped |
| `Http2Join.AlwaysInv` | cc/core/http2_server/src/http2_server.cc:712-772 | all invariants hold after every run of interleaved steps |
| `Http2Join.HandledOnlyIfWhole` | cc/core/http2_server/src/http2_server.cc:712-772 | the handler is called at most once, only if authorization succeeded and the body is all chunks in order with the announced length, and never besides a failure; at most one failure is sent |
| `Http2Join.ExactlyOneOutcome` | cc/core/http2_server/src/http2_server.cc:712-772 | once both callbacks have counted: the handler was called with the whole body if authorization succeeded and the chunks add up to the announced length, else exactly one failure was sent |
| `Http2Join.CountedUnlessClosed` | cc/core/http2_server/src/http2_server.cc:715-721 | both callbacks count unless the stream was closed first |
| `Http2Join.OutcomeOfRun` | cc/core/http2_server/src/http2_server.cc:693-772 | told from the run alone: if authorization answered success and the chunks delivered add up to the announced length the handler was called, once, with all of them in order; else it was not and one failure was sent |
| `Http2Join.HandlerCallIff` | cc/core/http2_server/src/http2_server.cc:732-771 | a thread calls the handler exactly when it brought the counter to zero and nothing has failed; a handler that does not accept is answered with a failure |
| `Http2Join.CloseSilences` | cc/core/http2_server/src/http2_server.cc:868-880 | once the stream is closed, an authorization that had not found the request answers nothing and calls no handler |
| `Http2Request.RequestBody.OnRequestBodyDataChunkReceived` | cc/core/http2_server/src/http2_request.cc:71-93 | a chunk that fits is appended in place; one that does not changes nothing and reports failure; the end reports success exactly for a full body |
| `Http2Request.SyncContext.OnHttp2PendingCallback` | cc/core/http2_server/src/http2_server.cc:712-772 | one invocation takes its thread's machine steps to the end; its effect is the one failure or the one handler call those steps record |
| `HttpClient.AlwaysInv` | cc/core/http2_client/src/http_connection.cc:157-193 | all invariants hold after every run of interleaved steps |
| `HttpClient.FinishedAtMostOnce` | cc/core/http2_client/src/http_connection.cc:353-391 | every accepted call is pending, won by one finisher, or finished, and finished at most once |
| `HttpClient.StopFinishesIff` | cc/core/http2_client/src/http_connection.cc:157-193 | after stopping exactly the calls accepted since the cancel pass looked are pending; all calls were finished if and only if there are none |
| `HttpClient.StopFinishesAll` | cc/core/http2_client/src/http_connection.cc:157-193 | if no call is being made when the I/O thread has ended and the connection is not ready, every call ever accepted has been finished exactly once by the end of the pass |
| `HttpClient.StopStrandsIff` | cc/core/http2_client/src/http_connection.cc:157-193 | when the I/O thread has ended, stopping can leave a call behind if and only if the connection is ready again or some caller is between its check and its insert |
| `HttpClient.PendingForever` | cc/core/http2_client/src/http_connection.cc:183-186 | a call pending when stopping is over stays pending forever |
| `HttpClient.StopClearsReady` | cc/core/http2_client/src/http_connection.cc:167-167 | Stop clears the ready flag, and only a connection that comes up sets it again |
| `HttpClient.DroppedIff` | cc/core/http2_client/src/http_connection.cc:335-351 | the connection is dropped exactly from the handling of its first error on |
| `HttpClient.ErrorPassRetries` | cc/core/http2_client/src/http_connection.cc:344-385 | whenever the pass of a connection error cancels a call, the connection is marked dropped and not ready |
| `HttpClient.SubmitFailureDropsConnection` | cc/core/http2_client/src/http_connection.cc:500-515 | a call that could not be submitted is taken out and the connection's error handling posted, unless someone else has finished the call |
| `HttpClient.AcceptedPerCheck` | cc/core/http2_client/src/http_connection.cc:411-434 | no more calls are accepted than callers found the connection ready |
| `HttpClient.AcceptedAfterStopExample` | cc/core/http2_client/src/http_connection.cc:326-333 | a run in which a call is accepted after Stop and never finished |
| `HttpConnection.Connection.Execute` | cc/core/http2_client/src/http_connection.cc:411-434 | the call is entered under a new id and posted, exactly if the connection is ready |
| `HttpConnection.Connection.SendHttpRequest` | cc/core/http2_client/src/http_connection.cc:436-524 | a call that cannot be sent is finished once, unless it already was; a sent one stays pending until its stream closes |
| `HttpConnection.Connection.OnRequestResponseClosed` | cc/core/http2_client/src/http_connection.cc:526-566 | the call is finished once, unless it already was, with the outcome the close error and the status call for |
| `HttpConnection.OutcomeOfClose` | cc/core/http2_client/src/http_connection.cc:542-563 | the call is to be retried if and only if the stream was closed with an error and the status tells of no known failure; else the status decides |
| `HttpConnection.Connection.CancelPendingCallbacks` | cc/core/http2_client/src/http_connection.cc:353-391 | exactly the pending calls are finished, each with its own context, to be retried if the connection was dropped |

## Left out

- Sockets, strands, epoll, vsock, library preloading, file-descriptor passing, TLS and session objects: only the bytes and the completion events are modelled, as parameters.
- Journal and checkpoint serialization: decoding is a contract, successful exactly at record boundaries; the bytes of a record are not modelled. Blob names are their ids, listed in ascending order.
- `JournalStream.JournalInputStream.ReadJournalBlobs`: the blobs of a window are read one after another and no read fails; that the parallel reads end in the same buffers, or in one recorded error, is `JournalReads.EndMoment`.
- `JournalStream.JournalInputStream.Discover`: of the failures of the store's calls only an invalid or missing checkpoint is modelled; the class is not restarted after an error.
- `Buffer.BasicBuffer`: blocks are ids, `next` pointers are the order of the chain, memory is a map from locations to bytes; aliasing of block objects in the heap is therefore not modelled. Allocation always succeeds.
- `Buffer.BasicBuffer.Reserve`: `NumBuffersToReserve`, a capacity hint that tests the opposite of its comment, has no effect on results and is left out.
- `Buffer.Freelist.New`: is sequential; the compare-and-swap loops of the freelist are not modelled, nor are `Clear` and `FillN`, which are short loops over `New` and `Delete`.
- `Socks5Clients.ClientConnect`: the separate buffer for a long domain name, and the failure to allocate it, are not modelled.
- The session pool's sockets, its backlog arithmetic and the passing on of accepted connections: easy or foreign once the byte exchange is fixed.
- `Bridge.ProxyBridge`: the destruction of the bridge is not modelled; waiting for an inbound connection and its cancellation signals are left out.
- `ExecutorThread.PriorityExecutor`: the priority queue is a set with some task of least timestamp on top; cancels arriving between two looks at the queue are covered by the step system, not by the class. The unlocked check of Stop and thread start-up are left out, and an infinite wait is taken to be infinite.
- `Http2Join.ExactlyOneOutcome`: assumes that the authorization callback is invoked once and that the stream reports the end of its data once and last; request routing, the handler's own response, metrics and the parsing of the content length are left out.
- `HttpConnection.OutcomeOfClose`: which failure each status code stands for is a plain table and left out.
- Output streams, leases, transactions, budget keys, authorization caches, credential and configuration providers, metrics and logging.
