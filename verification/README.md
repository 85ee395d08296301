# libfsc: a verified model

This project models the parts of libfsc where correctness depends on more than one function: the STMP
byte-stream pipeline, the two thread schedulers, the life of a connection on its worker, and the
publish/subscribe fan-out. Dafny proves the properties below for all inputs, all runs and all
interleavings. `dafny verify dfyconfig.toml` checks the whole project.

## How it is organised

| file | what it holds |
|---|---|
| `Wire.dfy` | bytes, tag-length-value fields, the configuration |
| `Framing.dfy` | the framing decisions of the receive loop as a pure greedy parser |
| `Receiver.dfy` | the fixed receive buffer, `evnRead` and the receive loop of `evnRecv` |
| `Segments.dfy`, `Messages.dfy`, `Assembly.dfy` | cutting a payload, the frames of a message, putting a message together again |
| `Encoder.dfy`, `Sender.dfy` | the builder that fills its buffer from the end, and the segmenting senders |
| `WriteStream.dfy`, `Connection.dfy` | the partial-write queue as a function of what the kernel answers, and the object that implements it |
| `WriteWakeup.dfy` | edge-triggered write readiness with a socket of finite room |
| `EndToEnd.dfy` | both ends composed |
| `Scheduler.dfy`, `BlockingPool.dfy` | the eventfd worker loop and the condition-variable pool, as step relations |
| `Descriptors.dfy` | ownership of accepted descriptors over all workers |
| `Lifetimes.dfy` | the life of a connection object as a machine over what a worker does to it |
| `Actors.dfy`, `Dispatch.dfy` | the objects and the table that implement it, and event handling on one worker |
| `Subscribers.dfy`, `Publish.dfy`, `StaleSubscribers.dfy`, `FanOut.dfy` | the subscription index, one worker's share of a publication, what it needs of the index, the shared countdown |

Code that changes objects is modelled by classes and loops whose contracts name a pure function of the old
state (`Parse`, `SendAll`, `EvnWrite`, `Apply`, `Step`); the properties are proved about that function. What several
threads do at once is modelled by states and steps, and the theorems quantify over every sequence of steps.

## What is assumed

- Tag numbers, `STMP_PDU_RESERVED` and `RET_SUCCESS` are defined in a library outside the repository. They
  are fields of `Wire.Config`. `Sane` asks that the tags that must differ do, that the reserve covers the 27
  octets of the largest header, that it is smaller than the MTU, and that the MTU is at most 0x10000, its
  default (core/Cfg.cpp:15).
- The builder functions `stmpenc_*` and the decoder are in the same library. The builder is taken to fill its
  buffer from the end, as the order of the calls shows (stmp/StmpNet.cpp:409-413); the length octets are
  those the reader accepts (stmp/StmpNet.cpp:60-77).
- Unpacking and message handlers are arbitrary functions of the frame and of the frames before it. The
  delivery results ask that the peer's handlers welcome the frames sent; `StmpN2H::evnMsg` refuses PONG
  (stmp/StmpN2H.cpp:43-71), so with a ping answered they are about peers of another kind.
- The kernel is arbitrary: `WriteStream.Kernel.Script` answers every send with any count and any `errno`, and
  `Receiver.Source` cuts the incoming bytes in any way. As on Linux, a receive of pending bytes into no space
  returns 0, and a poll looks at the socket again before it reports an edge. Only the wake-up results use a
  socket that reports EAGAIN exactly when it is full (`WriteStream.Kernel.Finite`); its peer may read between
  a refused send and the registration of the write event.
- Payloads are shorter than 2^31 octets, the range of the `int` casts in the senders.

## Findings

- An empty-bodied frame is complete after two octets but waits for a third (`Framing.EmptyBodyWaits`).
- With an MTU below 4 undecided bytes can fill the receive buffer. The next receive is into no space, returns
  0, and is taken for the end of the connection (`Receiver.EvnRecv`, `Framing.ReadOnIsParse`); with an MTU of
  2 an empty frame followed by anything is enough (`Framing.EmptyFrameFills`). From 4 upwards it cannot happen.
- An unsegmented STMP-UNI has its DNE outside the reserve. Every payload fits the peer's MTU if and only if a
  full segment does with the longest DNE and a session id, which for segments of 254 octets and more takes a
  reserve of 140 (`Assembly.UniAlwaysFits`); with less there are frames the encoder builds and the peer
  refuses (`Assembly.UniRefused`).
- The blocking pool never stalls, but with two or more threads a lambda can wait behind a running one while
  another thread sleeps and nobody will wake it (`BlockingPool.BusyExactly`).
- An edge does nothing when the socket filled up again before it was handled (`WriteWakeup.EdgeProgress`).
- A lost connection is notified once, has its user object deleted once, and goes with its last reference, if
  and only if `close` was called on it, after it was lost, once if an error event had removed it and never
  otherwise (`Lifetimes.Lifecycle`). An error event alone tells nobody and leaves the object unmarked until
  somebody closes it (`ErrorTellsNobody`, `ErrorThenClose`); every late `close` otherwise notifies once more
  and deletes the user object again (`ClosedTwice`).
- A sender of several frames looks at its object after a send that may have deleted it. It finds it alive if
  and only if somebody refers to it or no frame but the last fails (`Lifetimes.SenderLooksAtLive`): so in
  the handlers of its own frames and in publications, which pin it, but not in the lambdas that transactions
  leave for later (stmp/StmpTrans.cpp:47-51).
- Lost connections stay in the subscription index. Publications meet live subscribers only if and only if
  every deleted connection withdrew after its last subscription (`StaleSubscribers.SafeToPublish`); nothing
  in the repository withdraws one.
- A receive loop whose connection was closed by a handler goes on with its number. It can meet another
  connection there if and only if there is a second worker (`Descriptors.AnotherExactly`), and then parses
  its bytes behind those of the old one (`Receiver.EvnRecv`).

## Model

| member | source | states |
|---|---|---|
| Wire.TlvReads | stmp/StmpNet.cpp:60-77 | the size the reader computes from a header is the size of what was encoded, for both length forms and whatever follows |
| Wire.FieldsRoundTrip | stmp/StmpNet.cpp:293-305 | the fields put into a frame are the fields read from it, in order |
| Framing.DecideStable | stmp/StmpNet.cpp:33-84 | a decision to take or refuse a frame is not changed by bytes that arrive later |
| Framing.DecideTlv | stmp/StmpNet.cpp:60-84 | a frame with a body is taken whole if it is within the MTU and refused if it is not, whatever follows it, also in the form over 64K |
| Framing.EmptyBodyWaits | stmp/StmpNet.cpp:58-59 | a complete frame is taken with its last byte exactly when its body is not empty; an empty one with any further byte |
| Framing.DecideWide | stmp/StmpNet.cpp:65-84 | a length behind 0xFE is two octets read as a number, also where one would have done |
| Framing.DecideOver64K | stmp/StmpNet.cpp:60-64 | a length behind 0xFF is refused as soon as it can be seen |
| Framing.ParseHeartbeat | stmp/StmpNet.cpp:33-52 | a ping or pong is a frame of one octet, handed to the handler at once and without unpacking; parsing goes on behind it if the handler accepts it and ends there if not |
| Framing.ParseTlv | stmp/StmpNet.cpp:78-103 | any other frame: one over the MTU or one that does not unpack ends the parse unseen by the handler, one the handler refuses ends it, and otherwise parsing goes on behind it |
| Framing.ParseAppend | stmp/StmpNet.cpp:22-112 | parsing may stop at any byte and resume with the leftover bytes in front: same frames, same leftovers, same verdict |
| Framing.ParseSettles | stmp/StmpNet.cpp:100-111 | an open outcome keeps every byte in order, and what is left over cannot be decided yet |
| Framing.ChunkIndependence | core/Fworker.cpp:143-161 | every cutting of a stream into receives gives the frames, leftovers and verdict of one pass over the stream |
| Framing.RestFitsExactly | core/Fworker.cpp:145-150 | undecided bytes never fill the receive buffer if and only if the MTU is at least 4 |
| Framing.ReadOnAppend | core/Fworker.cpp:143-161 | bytes that fit the buffer may be parsed before the others arrive, so receiving into a buffer of the size of the MTU has one outcome for every cutting |
| Framing.ReadOnIsParse | core/Fworker.cpp:145-150 | that outcome is the one of parsing the stream, except where undecided bytes fill the buffer with more to come; that takes an MTU below 4, and an unbounded buffer would there have waited, refused, or taken an empty frame |
| Framing.EmptyFrameFills | core/Fworker.cpp:145-150 | with an MTU of 2 an empty frame followed by anything fills the buffer undecided, though it is a frame to be taken |
| Receiver.StmpNet.EvnRead | stmp/StmpNet.cpp:22-112 | with a moving cursor and an overlapping copy, the handler gets the parser's frames and on success the buffer holds exactly the unparsed suffix; a handler that closes the connection does not stop it, and the connection has stayed exactly if none did |
| Receiver.StmpNet.ReadFrame | stmp/StmpNet.cpp:26-103 | one turn of the loop: the next frame of the parser handled, or its verdict |
| Receiver.StmpNet.Inspect | stmp/StmpNet.cpp:33-84 | the in-place header checks make the parser's decision |
| Receiver.StmpNet.Compact | stmp/StmpNet.cpp:105-110 | the overlapping forward copy leaves exactly the unread bytes |
| Receiver.EvnRecv | core/Fworker.cpp:143-161 | for every MTU and every cutting: while the connection stays, the loop ends drained with the verdict of the kernel, at the refused frame, or, exactly when undecided bytes fill the buffer, closed without a refusal; once a handler has closed it, the bytes of whoever has the number now are parsed behind those received |
| Segments.CutTiles | stmp/StmpNet.cpp:130-157 | the segments concatenate to the payload |
| Segments.CutSizes | stmp/StmpNet.cpp:130-157 | all segments but the last are full and the last of a non-empty payload is not empty |
| Segments.CutCount | stmp/StmpNet.cpp:130-131 | there are as many segments as the rounded-up quotient |
| Segments.CutAt | stmp/StmpNet.cpp:140-151 | segment i is found at i times the segment length, and is the last exactly when it reaches the end |
| Messages.FrameSize | stmp/StmpNet.cpp:400-415 | a frame around one segment is within the MTU |
| Messages.PieceReads | stmp/StmpNet.cpp:409-413 | a frame read back shows exactly the data and the next-part flag put into it |
| Assembly.LeadDecodes | stmp/StmpNet.cpp:293-361 | a leading frame tells kind, transaction id, session id, return value and first segment |
| Assembly.MessageRoundTrip | stmp/StmpNet.cpp:115-215 | the frames of a message complete exactly that message, for CONTINUE, END with and without body, and PONG |
| Assembly.ConversationRoundTrip | stmp/StmpNet.cpp:115-215 | the frames of a sequence of messages complete exactly that sequence |
| Assembly.FramesCarry | stmp/StmpNet.cpp:130-157 | the data of the frames concatenate to the payload, and all frames but the last have the flag |
| Assembly.UniFramesCarry | stmp/StmpNet.cpp:218-266 | the same for STMP-UNI, for every frame list the reader lets through |
| Assembly.UniFrameReads | stmp/StmpNet.cpp:364-379 | an unsegmented UNI frame within the MTU is read back: kind, DNE, session id, data |
| Assembly.UniFramesName | stmp/StmpNet.cpp:240-264 | every frame of a segmented UNI message names its transaction, and the first its session |
| Assembly.UniFrameTaken | stmp/StmpNet.cpp:364-379 | whether an unsegmented UNI frame is taken or refused, from the lengths its sender knows |
| Assembly.UniAlwaysFits | stmp/StmpNet.cpp:224-225 | every payload of at most one segment fits, with every DNE and with or without a session id, if and only if the largest does; for long segments if and only if the reserve is at least 140 |
| Assembly.FullSegmentFits | stmp/StmpNet.cpp:364-379 | the same for a DNE of a given length: if and only if it fits the reserve with 10 octets, or 16 with a session id |
| Assembly.UniRefused | stmp/StmpNet.cpp:364-379 | a frame the encoder builds and the reader refuses, for every configuration with a smaller reserve |
| Encoder.StmpPdu.AddTag | stmp/StmpNet.cpp:409-413 | fields added last first, closed by the transaction tag, are the frame in reading order |
| Encoder.EncodeContinueWithPart | stmp/StmpNet.cpp:308-321 | the bytes are the leading CONTINUE frame of the segment; nothing is written outside the buffer |
| Encoder.EncodeEnd | stmp/StmpNet.cpp:324-342 | the bytes are the END frame, with the return value left out exactly on success |
| Encoder.EncodeEndWithPart | stmp/StmpNet.cpp:345-361 | the bytes are the leading END frame of the segment, always with the return value |
| Encoder.EncodePart | stmp/StmpNet.cpp:400-415 | the bytes are the PART frame of the segment |
| Sender.CutByQuotient | stmp/StmpNet.cpp:130-131 | quotient and remainder give the number of segments, also when the remainder is 0 |
| Sender.SendRest | stmp/StmpNet.cpp:140-157 | index arithmetic, flag and early stop of the loop send exactly the frames after the first |
| Sender.SendContinue | stmp/StmpNet.cpp:115-158 | the connection ends up as after sending all frames of the message |
| Sender.SendEnd | stmp/StmpNet.cpp:161-215 | the same for END, with and without a body |
| Sender.SendUni | stmp/StmpNet.cpp:218-266 | the same for UNI |
| Sender.EvnPing | stmp/StmpN2H.cpp:175-181 | a ping is answered with the one frame that reads as PONG |
| WriteStream.StreamIntegrity | actor/ActorNet.cpp:28-137 | in every run, with or without a queue and whatever the kernel answers: accepted and queued bytes are all bytes sent while established, and the accepted bytes are a prefix of them always |
| WriteStream.SendKeepsExactly | actor/ActorNet.cpp:33-108 | a send keeps the connection if and only if the queue was not empty, or the socket took all, or the rest may wait; without a queue if and only if the socket took all |
| WriteStream.SendOutcome | actor/ActorNet.cpp:71-104 | and what it leaves: behind a queue the whole buffer, else what the socket did not take, with the write event armed |
| WriteStream.EvnWriteStops | actor/ActorNet.cpp:112-137 | a write event offers the buffers in order up to the first not taken whole, loses the connection if and only if that call fails otherwise than by blocking, and leaves exactly what was not taken |
| WriteStream.RunStays | actor/ActorNet.cpp:28-137 | with a queue and a kernel that fails no call but by blocking, every run ends established if and only if nothing closed the connection |
| WriteStream.SendAllLost | stmp/StmpNet.cpp:140-149 | stopping early on a lost connection is the same as going on |
| WriteStream.SendAllIsRun | actor/ActorNet.cpp:28-61 | what a sender does is a run, with its frames as the buffers sent |
| Connection.ActorNet.Send | actor/ActorNet.cpp:28-61 | the object does what the stream function says, in both modes, and is kept exactly as there |
| Connection.ActorNet.SendBuf | actor/ActorNet.cpp:64-109 | only an empty queue offers to the socket, the unsent tail is queued, and the connection is lost exactly if the socket fails otherwise than by blocking |
| Connection.ActorNet.EvnWrite | actor/ActorNet.cpp:112-137 | the draining loop over partly written buffers does what the stream function says |
| WriteWakeup.NoLostWakeup | actor/ActorNet.cpp:86-104 | in every state a new connection can reach, unsent buffers have the write event armed, and the socket is full or an edge is on the way |
| WriteWakeup.NothingLost | actor/ActorNet.cpp:86-104 | a connection with a queue is never lost to a full socket: in every state reached by sends, reads of the peer and edges it is established, and has taken or queued all that was sent |
| WriteWakeup.EvnWriteFills | actor/ActorNet.cpp:112-137 | one write event moves exactly the bytes there is room for |
| WriteWakeup.EdgeProgress | core/Fworker.cpp:111-123 | an edge shortens what is unsent if and only if something is unsent and the socket has room |
| WriteWakeup.ReadingDrains | actor/ActorNet.cpp:112-137 | once the peer has read as much as was queued all of it is sent, with no further send |
| WriteWakeup.ReadingSendsAll | actor/ActorNet.cpp:112-137 | from every such state, once the peer has read as much as was unsent, all that was ever sent has been taken |
| EndToEnd.FramesSendable | stmp/StmpNet.cpp:115-215 | no frame of a message is refused, or waited for past its last byte |
| EndToEnd.DeliveryIsPrefix | stmp/StmpNet.cpp:22-215 | for all partial writes, write events, losses and receive cuttings, the frames delivered are a prefix of those sent and the messages they complete a prefix of the messages |
| EndToEnd.DeliveryIsComplete | stmp/StmpNet.cpp:22-215 | on a surviving connection with everything arrived, exactly the frames sent are delivered, nothing is left over, and they complete exactly the messages |
| EndToEnd.ServedIsRun | stmp/StmpNet.cpp:115-215 | any mixture of messages sent, write events and closes is a run of the stream whose buffers are the frames of the messages |
| EndToEnd.CallsDeliver | stmp/StmpNet.cpp:22-215 | both delivery results from such calls to messages completed |
| EndToEnd.ReadingDelivers | stmp/StmpNet.cpp:22-215 | liveness: on a socket of any room, however sends, reads and edges mixed, reading as much as was unsent delivers exactly the frames and the messages |
| Scheduler.SchedulerSafety | core/Fworker.cpp:27-73 | in every interleaving no worker sleeps on queued lambdas, lambdas leave the queue in push order, a worker's thread runs lambdas of its own actors only, and what it has run and what is queued are together exactly what was posted to them, so nothing runs twice that was not posted twice |
| Scheduler.PostedHere | actor/Actor.cpp:32-33 | a lambda posted by the thread that owns its actor is run at once, and nothing else changes |
| Scheduler.PostedElsewhere | actor/Actor.cpp:34-39 | one posted by any other thread is run by nobody yet: it is at the end of the queue of its owner, who is owed a write, and no other worker is touched |
| Scheduler.LoopProgress | core/Fworker.cpp:190-217 | with work queued and no write owed the loop is never stuck, and each of its steps brings the next lambda closer or takes it |
| Scheduler.LoopRests | core/Fworker.cpp:47-72 | with nothing queued every step of the loop brings it closer to the poll |
| BlockingPool.PoolConserves | actor/ActorBlocking.cpp:28-58 | pushed is started followed by queued, and started is running plus finished, as multisets |
| BlockingPool.NeverStallsExactly | actor/ActorBlocking.cpp:28-58 | with lambdas queued some thread is up or a signal is owed, in all reachable states, if and only if the pool has a thread |
| BlockingPool.BusyExactly | actor/ActorBlocking.cpp:49-58 | no thread is left asleep beside queued work that nobody is up for if and only if the pool has at most one thread |
| Descriptors.StepMoves | core/Fworker.cpp:76-108 | every step that concerns a descriptor moves it from one owner to the next, and none meets a fault |
| Descriptors.DispatchRegisters | core/Fworker.cpp:86-106 | a connection within the limit gets an object, and its registration is run in place on worker 0 or queued last for the worker it hashes to; one over the limit gets none and is closed |
| Descriptors.AddRegisters | core/Fworker.cpp:100-106 | in every reachable state running a registration lists its object, established, on the worker it hashes to |
| Descriptors.HashInTurn | core/Fsc.cpp:122-125 | consecutive descriptors go to the workers in turn |
| Descriptors.DescriptorOwnership | core/Fworker.cpp:220-238 | over all runs with reuse of numbers: open descriptors are exactly the held ones, each in one place, on its hashed worker and for the connection last made for it; within the limit each is just accepted, or queued, being registered, listed or being removed for its own object; a registered connection is established exactly while it is listed or just being removed, so removals guarded by `est` erase their own entry; no registration finds an entry, nothing is closed twice |
| Descriptors.RecvMeets | core/Fworker.cpp:139-161 | a receive loop meets its own connection exactly while its object is established; after that nothing, or, on a worker other than 0, a connection accepted since and not yet registered |
| Descriptors.AnotherExactly | core/Fworker.cpp:97-106 | the latter can happen if and only if there are two workers |
| Lifetimes.Lifecycle | actor/ActorNet.cpp:140-152 | over all runs of registrations, reads, writes, errors, publications and lambdas: a connection on the table is unnotified and unmarked; one off it is notified once, has its user object deleted once and is marked if and only if it was closed late exactly once after an error event and never otherwise; it lives on exactly while referred to, or unmarked after an error event |
| Lifetimes.StepComesTo | core/Fworker.cpp:111-187 | what each event comes to, object by object: the moves of handlers and lambdas, a failed read losing its connection unless a handler has, an error event dropping it, a publication losing those it failed to reach |
| Lifetimes.FailedRead | core/Fworker.cpp:162-171 | whatever handlers did, a failed read leaves its connection lost and marked, and notifies it exactly if they left it established |
| Lifetimes.ErrorTellsNobody | core/Fworker.cpp:176-187 | the run of an error event, after which the object is alive, unmarked and not notified |
| Lifetimes.ErrorThenClose | stmp/StmpTrans.cpp:38-44 | a close after that notifies once and deletes it |
| Lifetimes.ClosedTwice | actor/ActorNet.cpp:140-152 | the run of two closes of a referred object, notified twice and its user object deleted twice |
| Lifetimes.PinProtects | core/Fworker.cpp:139-172 | whatever handlers do to the object of an event, as long as they let go only of what they took hold of, no step of the event meets it deleted |
| Lifetimes.PinsCancel | core/Fworker.cpp:139-172 | the pin changes nothing else |
| Lifetimes.SenderLooksAtLive | stmp/StmpNet.cpp:136-149 | the reads of `est` between the frames of a message find the object alive if and only if it is referred to or no frame but the last fails |
| Actors.Conn.UnRef | actor/Actor.cpp:49-57 | one reference less, and a marked object is deleted exactly when the last one goes |
| Actors.Conn.Del | actor/Actor.cpp:60-70 | the object is marked, and lives on exactly while it is referred to |
| Actors.Conn.EvnDis | stmp/StmpN2H.cpp:28-40 | notified once, the user object deleted, marked, and deleted unless referred to |
| Actors.Fworker.AddActorNet | core/Fworker.cpp:220-229 | an existing entry is kept |
| Actors.Fworker.RemoveActorNet | core/Fworker.cpp:232-238 | the number of the object is erased and closed, whoever is listed for it, and the object no longer established |
| Actors.Fworker.Close | actor/ActorNet.cpp:140-152 | removed only while established, and what `Lifetimes` says of a close |
| Dispatch.EvnConn | core/Fworker.cpp:97-106 | a connection registered under a free number is one more established object |
| Dispatch.EvnRecv | core/Fworker.cpp:126-173 | whatever handlers do to any connections, with references held before and after: every object lives on as the read event of `Lifetimes` says, after a good read as the handlers left it, after a failed one off the table, marked and notified; the table holds exactly the established ones |
| Dispatch.EvnSend | core/Fworker.cpp:111-123 | the same for write events: every object is as the moves during it leave it |
| Dispatch.EvnErro | core/Fworker.cpp:176-187 | the same for error events; the number is off the table |
| Dispatch.RunLambda | core/Fworker.cpp:198-217 | the same for lambdas, which no event pins |
| Subscribers.IndexIsRelation | stmp/StmpNet.cpp:535-566 | after any history the list of a path is the subsequence of its subscriptions not later withdrawn by their connection |
| Subscribers.SubscribeTo | stmp/StmpNet.cpp:535-547 | the index changes by one subscription at the end of one list |
| Subscribers.EraseFrom | stmp/StmpNet.cpp:558-564 | erasing while iterating removes exactly the withdrawn entries and keeps the order |
| Subscribers.UnSubscribeAll | stmp/StmpNet.cpp:550-566 | all lists lose exactly the entries of the connection |
| Publish.Snapshot | stmp/StmpNet.cpp:594-610 | the list is the root's entries, then the path's, with one reference for each and nothing else changed |
| Publish.SendEntry | stmp/StmpNet.cpp:611-616 | while an entry is sent every subscriber is referred to for each entry still to come, so a connection listed many times is not deleted before its last entry, whichever sends fail |
| Publish.SendAll | stmp/StmpNet.cpp:611-616 | every entry is attempted once, in order; references and transaction ids move by the number of occurrences, and a connection is lost and notified once exactly if one of its sends fails |
| Publish.IdsIncrease | stmp/StmpNet.cpp:614 | two entries of one connection are never sent under the same transaction id |
| Publish.PublishHere | stmp/StmpNet.cpp:579-623 | for root and path together, counts are back where they were, each connection is as if at most one send had failed, and the whole is the publication event of `Lifetimes` |
| Publish.PublishedComesTo | stmp/StmpNet.cpp:611-616 | a connection is lost, marked and notified once exactly if it was established and one of its sends failed; its references are as before and its transaction number is higher by its entries |
| StaleSubscribers.SafeToPublish | stmp/StmpNet.cpp:535-566 | after any history, publications on all paths meet live subscribers only if and only if every deleted connection withdrew after its last subscription |
| FanOut.FreedOnceAndLast | stmp/StmpNet.cpp:569-626 | over all interleavings no shared object is used or freed after it was freed, only the lambda that counts last frees, and at the end each object has been freed once |
| FanOut.FanOutEnds | stmp/StmpNet.cpp:569-626 | until all lambdas are through one of them can go on, and every such step uses up work |

## Left out

- `encodeSwitchBegin` (stmp/StmpNet.cpp:274-290): it passes the length of the DNE for the SNE, so its frame has no meaning to prove.
- The END tag on the first of several UNI frames (stmp/StmpNet.cpp:395) is modelled as written; a receiver cannot tell such a message from an END, so UNI is not part of the conversation results.
- EvnRecv: `Receiver.EvnRecv` models the bytes and `Dispatch.EvnRecv` the objects; when a closed number is accepted again is in `Descriptors`, and what a descriptor number leads to then is a parameter.
- SendRest: models the loop that three senders repeat as one method, on an object that stays allocated; when it does is `Lifetimes.SenderLooksAtLive`.
- EvnRead: its handlers decide about frames and about their own connection; what they do to other connections is in `Dispatch`, and what they send in `Sender`.
- EvnSend: does not say when the events of a descriptor are reported; the loop skips the read when both are ready.
- SchedulerSafety: takes the spin lock as atomic and the eventfd counter as unbounded; likewise the mutex of the pool and the add-and-fetch of the fan-out. It covers actors of workers; a lambda for a blocking actor goes to the pool (actor/Actor.cpp:25-31), which is a model of its own.
- PublishHere: does not remove lost connections from the index, because the source does not; live subscribers are its precondition, and `StaleSubscribers.SafeToPublish` says when it holds.
- EvnDis: the user object is a flag and a count of its deletions; its own reaction to the notice is among the moves of handlers. The entry in the switch table, whose removal is a stub (stmp/StmpSsc.cpp:30-33), is not modelled.
- Send: queued buffers hold their bytes by value; the copy out of the caller's memory and the release of it are not modelled.
- AddTag: returns the finished bytes by value; freeing the builder's buffer after the send is not modelled.
- Actors with an invalid worker index, which the source does not check for.
- The message handlers other than begin and ping, `StmpTrans`, the switch and timer classes: stubs, or without behaviour beyond a call of what is modelled.
- Protobuf, logging, statistics, configuration, socket options and the optimisation flags `busy`.
- Timing, thread priorities and overflow of the transaction number.

Nothing was executed.
