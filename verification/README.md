# A STOMP reactor server and its client, modelled and proved

The project models a Java STOMP server (a reactor with an actor thread pool, and its thread-per-client
variant), the C++ client that reports emergency events through it, and the two small codecs that ship with
the server. It proves what they promise over all inputs, all runs and all interleavings.

**Concurrency** (`ActorPool*`, `ReadPath*`, `WritePath*`, `ConnectionHandlers`). Threads have program counters and
every access to shared memory is one step: monitors, the weak map of pending queues with its separate
read-locked get and write-locked put, the executor's queue, the buffer pool, write queues, the selector's
tasks, interest sets and its wakeup flag (sticky until the next select returns). Invariants are proved step by
step and the theorems hold in every state of every run: per-actor serial FIFO with conservation, refinement of
an atomic actor, the byte stream decoded in order under every chunking, buffer ownership, no lost write, no
lost wakeup, output conservation, and the reactor refining the simple blocking handler. What goes in and out is
said in terms of the steps alone: the chunks read on a connection's turns, the bytes given to its calls of send, the
tasks a thread was asked to submit; and the threads get on: nothing is stuck, calls end, a visit to handleWrite
ends with the queue written or the channel full.

**The broker** (`Broker`, `BrokerSteps`, `BrokerRuns`, `BrokerAnswers`, `BrokerObjects`). One frame is one step,
followed by a close when the session has ended; accepting, abrupt closes and frames still buffered after a close are
steps too. The registry agrees with the sessions, logins agree with connections, fan-out is exact, message ids
increase up to 2^31. Every frame's answer is written out, text by text and header by header. The classes of the
server, with the mutual recursion between closing a handler and disconnecting it, are proved to make exactly these
steps.

**The client** (`CreateFrames`, `ClientSession`, `SessionWire`, `SessionAgreement`, `StuckDecoder`,
`SessionAftermath`, `SessionExamples`, `SendHeaders`, `SessionSends`, `Handshake`, `Events`, `EventPipeline`,
`EventDelivery`, `EventMeaning`, `EventJourney`, `EventHistory`). Client and server are composed over a FIFO of
bytes and the server's decoder: at any time the bytes in flight account for the difference between the two views of
the subscriptions, as long as every frame the client has handed over arrives as itself, and exactly that long. This
agreement includes that every frame handed over is one message; what an unclean frame does to the subscriptions
alone, at once and for the rest of the session, is proved apart. An event keeps its meaning on the whole way through
body, SEND frame, decoder, server run, MESSAGE frame, client stream and parser.

**The codecs** (`StompFrame`, `StompCodec`, `WideText`, `ObjectCodec`, `LineCodec`, with `Text`, `Search`, `Decimal`). Round
trips as equivalences: exactly which messages survive.

Code that updates objects is written as classes and loops proved against specification functions; the
properties are lemmas about those functions. Where the code differs from what one would expect of it, the
model follows the code, and a lemma says where the expectation ends:

- a frame text without any line, and a header line without a colon, throw (`StompFrame.FrameRoundTrip`);
- text that is not ASCII does not survive the wire (`WideText.WireRoundTripIff`);
- MESSAGE frames carry the sender's subscription number, which is the receiver's only if the two happen to be equal
  (`BrokerRuns.ReceiverSeesSendersNumber`);
- only a DISCONNECT frame with a receipt header ends a login (`BrokerRuns.LoginEndsIff`), so that a connection that
  breaks keeps it for good (`BrokerRuns.AbruptCloseKeepsLogin`, with a run in `BrokerRuns.LockedOut`);
- the message counter wraps (`BrokerRuns.NextIdGrows`);
- the client can take an error that quotes the user name for a success (`Handshake.HandshakeAgreesIff`);
- a destination with a newline or a NUL breaks the agreement of frames and subscriptions, and so does a SEND frame that
  does not parse or has a NUL in it, and nothing else does (`SessionAgreement.AgreementSurvivesIff`,
  `SessionAgreement.SubscribeAgreesIff`; both kinds of SEND are in `SessionExamples`). Such a SEND need not touch the
  subscriptions at once (`SessionAftermath.SendAgreesIff`): one that does not parse changes none itself, and one
  with a NUL only those that the frames behind the NUL change;
- but a frame that does not parse is the end of its connection: its text stays in the decoder for good, no later
  SUBSCRIBE, UNSUBSCRIBE or DISCONNECT ever lands (`SessionAftermath.ThrowingFrameIsTheEnd`,
  `StuckDecoder.StuckForGood`);
- the user header of a SEND frame is all the text behind the body's first `user:`, so that a later line of it can
  replace the frame's own headers and send it elsewhere (`SendHeaders.SendFrameHeaders`, `SessionSends.BodyRedirects`);
- the general information of an event is lost but for its two flags (`EventMeaning.InfoSurvivesIff`), and a flag that is
  not set is read as set when another line reads like it (`EventMeaning.FlagMeansSet`,
  `EventMeaning.InactiveReadAsActive`);
- an object that serializes to no bytes never comes back (`ObjectCodec.RoundTripsIff`);
- a line of more than 2^30 bytes throws (`LineCodec.OkIffLinesFit`).

Check everything with `dafny verify dfyconfig.toml`.

## Model

| member | source | states |
|---|---|---|
| ActorPoolSteps.StepKeepsInv | SPL251-Assignment3-student-template/server/src/main/java/bgu/spl/net/srv/ActorThreadPool.java:28-76 | every single access of every thread (monitor, playingNow, the two lock sections of the map, queues, executor, a weak entry dropped) keeps the pool's invariant, and each is either invisible to an act or exactly one whole submit or complete on it |
| ActorPoolRuns.SerialFifo | SPL251-Assignment3-student-template/server/src/main/java/bgu/spl/net/srv/ActorThreadPool.java:28-76 | in every state of every interleaving, the tasks submitted for an act are completed ++ in flight ++ pending, at most one is in flight, and the act is in playingNow exactly while one is |
| ActorPoolRuns.RunsAloneAndInOrder | SPL251-Assignment3-student-template/server/src/main/java/bgu/spl/net/srv/ActorThreadPool.java:57-76 | no two threads run tasks of one act at once, and the one running is the next in submission order |
| ActorPoolRuns.PutNeverOverwrites | SPL251-Assignment3-student-template/server/src/main/java/bgu/spl/net/srv/ActorThreadPool.java:43-55 | the write-locked put after a read-locked get never replaces a queue another thread has put in between |
| ActorPoolRuns.CollectLosesNothing | SPL251-Assignment3-student-template/server/src/main/java/bgu/spl/net/srv/ActorThreadPool.java:23-23 | an entry the weak map may drop always has an empty queue |
| ActorPoolRuns.NeverStuck | SPL251-Assignment3-student-template/server/src/main/java/bgu/spl/net/srv/ActorThreadPool.java:28-76 | while a task is in flight or pending and there are threads, some thread can take a closure or make its next access; poll never meets an empty queue |
| ActorPoolRuns.RefinesAtomicActor | SPL251-Assignment3-student-template/server/src/main/java/bgu/spl/net/srv/ActorThreadPool.java:28-76 | for each act, every interleaving shows the same as some sequence of atomic submits and completes |
| ActorPoolCalls.EveryCallIsSubmitted | SPL251-Assignment3-student-template/server/src/main/java/bgu/spl/net/srv/ActorThreadPool.java:28-37 | from the steps alone: the atomic submits a thread makes are the calls it was asked to make, with their acts and tasks, once each and in order, all but at most its latest |
| ActorPoolCalls.CallsEnd | SPL251-Assignment3-student-template/server/src/main/java/bgu/spl/net/srv/ActorThreadPool.java:28-76 | under every interleaving a call of submit is over after at most six accesses of its own, a closure after at most eight |
| ActorPoolRuns.ActorThreadPool.Submit | SPL251-Assignment3-student-template/server/src/main/java/bgu/spl/net/srv/ActorThreadPool.java:28-37 | the object: the act's view changes by one atomic submit and no other act's view changes |
| ActorPoolRuns.ActorThreadPool.PendingRunnablesOf | SPL251-Assignment3-student-template/server/src/main/java/bgu/spl/net/srv/ActorThreadPool.java:43-55 | the act has a queue afterwards, the one it had or an empty one; all other queues are as before |
| ActorPoolRuns.ActorThreadPool.Execute | SPL251-Assignment3-student-template/server/src/main/java/bgu/spl/net/srv/ActorThreadPool.java:57-65 | exactly one closure, of this act, is handed to the executor |
| ActorPoolRuns.ActorThreadPool.Complete | SPL251-Assignment3-student-template/server/src/main/java/bgu/spl/net/srv/ActorThreadPool.java:67-76 | the act's view changes by one atomic complete and no other act's view changes |
| ReadPathFrames.ReadStepKeepsInv | SPL251-Assignment3-student-template/server/src/main/java/bgu/spl/net/srv/NonBlockingConnectionHandler.java:70-104 | every access of the selector thread and of the workers keeps pool, buffers, leases and decoders consistent |
| ReadPathRuns.BytesArriveInOrder | SPL251-Assignment3-student-template/server/src/main/java/bgu/spl/net/srv/NonBlockingConnectionHandler.java:70-104 | in every interleaving, while no task of a connection has thrown, the bytes its decoder was fed are a prefix of the chunks the steps read on its own turns, and equal once its tasks have drained |
| ReadPathRuns.WireIsReceived | SPL251-Assignment3-student-template/server/src/main/java/bgu/spl/net/srv/NonBlockingConnectionHandler.java:70-98 | from the steps alone: a connection's byte stream is the concatenation of the chunks read while the latest lease was for it |
| ReadPathRuns.MessagesAreTheFrames | SPL251-Assignment3-student-template/server/src/main/java/bgu/spl/net/srv/NonBlockingConnectionHandler.java:82-98 | the messages given to process are the NUL-terminated pieces of what the steps read from the connection's own channel, parsed one by one and in order, however the reads were chunked; all of them once the tasks have drained |
| ReadPathRuns.NothingThrows | SPL251-Assignment3-student-template/server/src/main/java/bgu/spl/net/srv/NonBlockingConnectionHandler.java:82-98 | if process never throws and the frames on the wire are well formed, no read task throws |
| ReadPathRuns.EveryFrameIsProcessedOnce | SPL251-Assignment3-student-template/server/src/main/java/bgu/spl/net/srv/NonBlockingConnectionHandler.java:70-104 | any ASCII, NUL-free frame texts that parse, back to back, whoever printed them, are processed once each and in order, under every chunking and interleaving |
| ReadPathRuns.EveryMessageIsProcessedOnce | SPL251-Assignment3-student-template/server/src/main/java/bgu/spl/net/srv/NonBlockingConnectionHandler.java:70-104 | messages printed by the encoder, with headers in any order, come out of process as they went in, once each and in order |
| ReadPathRuns.BufferOwnership | SPL251-Assignment3-student-template/server/src/main/java/bgu/spl/net/srv/NonBlockingConnectionHandler.java:130-141 | every allocated buffer is in BUFFER_POOL exactly once, or being filled, or leased to exactly one live lease, whose bytes it still holds |
| ReadPathRuns.ReleasedAtMostOnce | SPL251-Assignment3-student-template/server/src/main/java/bgu/spl/net/srv/NonBlockingConnectionHandler.java:95-97 | a task that releases its buffer still holds it: no lease is released twice |
| ReadPathRuns.ReactorRefinesBlocking | SPL251-Assignment3-student-template/server/src/main/java/bgu/spl/net/srv/BlockingConnectionHandler.java:39-44 | for one byte stream and a deterministic protocol, up to the first message that ends the session the reactor processes what the thread-per-client handler does |
| ReadPathProgress.ReadNeverStuck | SPL251-Assignment3-student-template/server/src/main/java/bgu/spl/net/srv/NonBlockingConnectionHandler.java:82-98 | while anything read has not been drained, a submission, a pool access, a byte, a release or a return is possible |
| ReadPathProgress.SelectorReadsOn | SPL251-Assignment3-student-template/server/src/main/java/bgu/spl/net/srv/NonBlockingConnectionHandler.java:70-79 | between tasks the selector thread can lease a buffer for any connection, and then take any chunk of up to 8192 bytes or a failure |
| ReadPathProgress.ThrownIff | SPL251-Assignment3-student-template/server/src/main/java/bgu/spl/net/srv/NonBlockingConnectionHandler.java:82-98 | a task of a connection has thrown if and only if some step handed over a terminator behind a malformed text, or process threw on its message |
| ReadPathProgress.ThrowingTaskReleases | SPL251-Assignment3-student-template/server/src/main/java/bgu/spl/net/srv/NonBlockingConnectionHandler.java:95-97 | a task that throws takes no further byte, and releases its buffer |
| ConnectionHandlers.BlockingConnectionHandler.Run | SPL251-Assignment3-student-template/server/src/main/java/bgu/spl/net/srv/BlockingConnectionHandler.java:31-49 | the read loop processes exactly the messages of the input up to and including the first one that ends the session |
| ConnectionHandlers.NonBlockingConnectionHandler.RunTask | SPL251-Assignment3-student-template/server/src/main/java/bgu/spl/net/srv/NonBlockingConnectionHandler.java:82-98 | draining a buffer advances decoder and messages as the byte-wise specification says, and closes exactly if a message of it ended the session |
| ConnectionHandlers.NonBlockingConnectionHandler.Send | SPL251-Assignment3-student-template/server/src/main/java/bgu/spl/net/srv/NonBlockingConnectionHandler.java:45-54 | the bytes written and to be written grow by exactly one encoded message, and write interest is asked for; null does nothing |
| ConnectionHandlers.NonBlockingConnectionHandler.HandleWrite | SPL251-Assignment3-student-template/server/src/main/java/bgu/spl/net/srv/NonBlockingConnectionHandler.java:107-118 | under any partial writes no byte is lost, repeated or reordered; the buffers are offered in turn, each after the one before was taken whole; it stops only at one that was not, and resets the interest exactly when nothing is left |
| ConnectionHandlers.SelectorThread.UpdateInterestedOps | SPL251-Assignment3-student-template/server/src/main/java/bgu/spl/net/srv/Reactor.java:86-94 | on the selector thread the interest becomes the ops asked for at once; from another thread they are posted as a task and a wakeup made |
| ConnectionHandlers.SelectorThread.RunSelectionThreadTasks | SPL251-Assignment3-student-template/server/src/main/java/bgu/spl/net/srv/Reactor.java:152-156 | afterwards no task is left and the interest sets are those after all tasks in posting order |
| ConnectionHandlers.LastTaskCounts | SPL251-Assignment3-student-template/server/src/main/java/bgu/spl/net/srv/Reactor.java:152-156 | of the tasks for one connection the last one decides its interest; without one it stays |
| WritePathSteps.WriteStepKeepsInv | SPL251-Assignment3-student-template/server/src/main/java/bgu/spl/net/srv/Reactor.java:55-93 | every access of any sender and of the selector thread keeps tasks, interest, wakeup flag, write queues and channels consistent |
| WritePathRuns.NoLostWrite | SPL251-Assignment3-student-template/server/src/main/java/bgu/spl/net/srv/Reactor.java:55-93 | when the selector thread is about to block with no wakeup pending and nobody is mid-send, there are no tasks and every connection with something to write has its write interest set |
| WritePathRuns.NoLostWakeup | SPL251-Assignment3-student-template/server/src/main/java/bgu/spl/net/srv/Reactor.java:86-93 | a task posted while the selector thread is about to block comes with a wakeup, made or about to be made |
| WritePathRuns.OutputConserved | SPL251-Assignment3-student-template/server/src/main/java/bgu/spl/net/srv/NonBlockingConnectionHandler.java:107-118 | bytes accepted by the channel ++ the unwritten rest of the queue are all bytes ever enqueued, in enqueue order |
| WritePathRuns.PolledIsPeeked | SPL251-Assignment3-student-template/server/src/main/java/bgu/spl/net/srv/NonBlockingConnectionHandler.java:108-115 | the buffer polled is the one that was peeked and has been written completely |
| WritePathRuns.SelectorNeverFails | SPL251-Assignment3-student-template/server/src/main/java/bgu/spl/net/srv/Reactor.java:152-156 | remove, peek and poll never meet an empty queue |
| WritePathCalls.EnqueuedIsGiven | SPL251-Assignment3-student-template/server/src/main/java/bgu/spl/net/srv/NonBlockingConnectionHandler.java:45-54 | from the steps alone: the bytes queued for a connection are those given to its calls of send, each message when its call queues it |
| WritePathCalls.EveryMessageIsQueued | SPL251-Assignment3-student-template/server/src/main/java/bgu/spl/net/srv/NonBlockingConnectionHandler.java:45-54 | each sender's messages are queued once each and in the order it sent them, all but at most the one in its hands |
| WritePathCalls.SenderIsCall | SPL251-Assignment3-student-template/server/src/main/java/bgu/spl/net/srv/Reactor.java:86-93 | where a sender is follows from the steps: after its third access, the wakeup, it is out of send |
| WritePathCalls.WrittenIsGiven | SPL251-Assignment3-student-template/server/src/main/java/bgu/spl/net/srv/NonBlockingConnectionHandler.java:45-118 | bytes accepted by the channel ++ the unwritten rest are exactly the bytes the callers gave, in queueing order |
| WritePathCalls.LeavesDoneOrFull | SPL251-Assignment3-student-template/server/src/main/java/bgu/spl/net/srv/NonBlockingConnectionHandler.java:107-118 | handleWrite is left for the keys only with the queue found empty in that visit, or with its head offered to the channel in that visit and not taken whole; the connection is the one found writable |
| WritePathCalls.WritableWritesAll | SPL251-Assignment3-student-template/server/src/main/java/bgu/spl/net/srv/NonBlockingConnectionHandler.java:107-118 | from a writable key on, undisturbed and with a channel that takes what it is offered, everything given for the connection gets written and its interest goes back to reading |
| WritePathCalls.WakesToTasks | SPL251-Assignment3-student-template/server/src/main/java/bgu/spl/net/srv/Reactor.java:152-156 | when select returns, undisturbed, every posted connection gets its write interest and no task is left |
| WritePathCalls.FullChannelEndsVisit | SPL251-Assignment3-student-template/server/src/main/java/bgu/spl/net/srv/NonBlockingConnectionHandler.java:110-113 | a channel that does not take the whole buffer ends the visit at the next access, queue and interest as they were |
| WritePathCalls.SleepsAndWakes | SPL251-Assignment3-student-template/server/src/main/java/bgu/spl/net/srv/Reactor.java:55-94 | from the steps alone: the selector thread sleeps from the end of the keys until select returns, and a wakeup is pending exactly if a call of send has ended since it last did |
| WritePathCalls.NothingUnasked | SPL251-Assignment3-student-template/server/src/main/java/bgu/spl/net/srv/Reactor.java:99-121 | a connection nobody has sent anything is only ever asked to read, and nothing is written to it |
| WritePathCalls.RegisteredIffAccepted | SPL251-Assignment3-student-template/server/src/main/java/bgu/spl/net/srv/Reactor.java:99-121 | the selector has exactly the connections that have been accepted |
| WritePathCalls.NobodyWaits | SPL251-Assignment3-student-template/server/src/main/java/bgu/spl/net/srv/Reactor.java:55-93 | workers and selector thread can always make their next access |
| StompFrame.FrameRoundTrip | SPL251-Assignment3-student-template/server/src/main/java/bgu/spl/net/impl/stomp/StompMessageEncoderDecoder.java:34-71 | for every order of the headers, a printed frame parses back to its message if and only if the message is canonical (one-line command, keys without colon or newline, one-line values, body equal to its trim, not entirely empty) |
| StompFrame.PrintedFrameParses | SPL251-Assignment3-student-template/server/src/main/java/bgu/spl/net/impl/stomp/StompMessageEncoderDecoder.java:34-56 | a printed list of headers parses to the map in which the last repeated header wins |
| StompCodec.WireRoundTrip | SPL251-Assignment3-student-template/server/src/main/java/bgu/spl/net/impl/stomp/StompMessageEncoderDecoder.java:13-29 | on the wire: a decoder fed the bytes of one ASCII message returns it and is empty again if and only if it is canonical and free of NUL |
| WideText.WireRoundTripIff | SPL251-Assignment3-student-template/server/src/main/java/bgu/spl/net/impl/stomp/StompMessageEncoderDecoder.java:13-29 | for every message at all: the bytes of one message are decoded to exactly it, and the decoder is empty again, if and only if it is canonical, free of NUL and ASCII throughout |
| WideText.Utf8RoundTrip | SPL251-Assignment3-student-template/server/src/main/java/bgu/spl/net/impl/stomp/StompMessageEncoderDecoder.java:28-29 | what is written is UTF-8: a standard reader gets every text back from its bytes |
| StompCodec.StreamRoundTrip | SPL251-Assignment3-student-template/server/src/main/java/bgu/spl/net/impl/stomp/StompMessageEncoderDecoder.java:13-71 | the bytes of any frames back to back decode to exactly those messages, in order |
| StompCodec.DecodeConcat | SPL251-Assignment3-student-template/server/src/main/java/bgu/spl/net/impl/stomp/StompMessageEncoderDecoder.java:13-23 | chunking does not matter to the decoder |
| StompCodec.OneMessagePerNul | SPL251-Assignment3-student-template/server/src/main/java/bgu/spl/net/impl/stomp/StompMessageEncoderDecoder.java:14-18 | every terminator yields one message unless a frame throws |
| StompCodec.MessagesAreThePieces | SPL251-Assignment3-student-template/server/src/main/java/bgu/spl/net/impl/stomp/StompMessageEncoderDecoder.java:13-23 | for every byte stream at all: the messages returned are its NUL-terminated pieces parsed in order, the buffer is what follows the last NUL, and decoding throws exactly at the first piece that does not parse |
| StompCodec.SplitNulSplits | SPL251-Assignment3-student-template/server/src/main/java/bgu/spl/net/impl/stomp/StompMessageEncoderDecoder.java:14-18 | those pieces are the split: joined with their terminators they are the stream, and none has a NUL in it |
| StompCodec.TextsArrive | SPL251-Assignment3-student-template/server/src/main/java/bgu/spl/net/impl/stomp/StompMessageEncoderDecoder.java:13-23 | any ASCII, NUL-free texts that parse, back to back, each arrive as the one message they parse to |
| StompCodec.StompMessageEncoderDecoder.DecodeNextByte | SPL251-Assignment3-student-template/server/src/main/java/bgu/spl/net/impl/stomp/StompMessageEncoderDecoder.java:13-23 | one byte moves the buffer and returns what the byte-wise specification says; a frame that throws stays in the buffer |
| StompCodec.StompMessageEncoderDecoder.ParseFrameText | SPL251-Assignment3-student-template/server/src/main/java/bgu/spl/net/impl/stomp/StompMessageEncoderDecoder.java:34-56 | the two loops compute the recursive parser, which throws on a header line without colon and on a text without lines |
| StompCodec.StompMessageEncoderDecoder.EncodeFrame | SPL251-Assignment3-student-template/server/src/main/java/bgu/spl/net/impl/stomp/StompMessageEncoderDecoder.java:61-71 | the text is the frame's for some enumeration of its header map, whatever the iteration order |
| BrokerSteps.ProcessMoves | SPL251-Assignment3-student-template/server/src/main/java/bgu/spl/net/impl/stomp/StompMessagingProtocolImpl.java:39-241 | what each frame does to the channels and the sender's subscriptions: nothing, one joined, one left, or all dropped with the session ended |
| BrokerSteps.ProcessLogins | SPL251-Assignment3-student-template/server/src/main/java/bgu/spl/net/impl/stomp/StompMessagingProtocolImpl.java:75-120 | a CONNECT frame logs in exactly when version, host, login and passcode pass and an existing user is not logged in; DISCONNECT logs out; no other frame touches logins |
| BrokerSteps.DisconnectIs | SPL251-Assignment3-student-template/server/src/main/java/bgu/spl/net/srv/ConnectionsImpl.java:39-53 | the mutual recursion of close and disconnect ends and comes down to removing the id from the clients and from every channel |
| BrokerSteps.AcceptedSend | SPL251-Assignment3-student-template/server/src/main/java/bgu/spl/net/impl/stomp/StompMessagingProtocolImpl.java:183-213 | an accepted SEND gives one MESSAGE, with the sender's subscription number and the next id, to each registered subscriber and nothing to others, and changes nothing else |
| BrokerSteps.RefusedSend | SPL251-Assignment3-student-template/server/src/main/java/bgu/spl/net/impl/stomp/StompMessagingProtocolImpl.java:183-201 | a SEND that fails one of the four tests only gives its sender the ERROR frame of the first test failed |
| BrokerSteps.OnlyReplies | SPL251-Assignment3-student-template/server/src/main/java/bgu/spl/net/impl/stomp/StompMessagingProtocolImpl.java:39-66 | no other frame gives anything to anyone but its sender, and never a MESSAGE |
| BrokerAnswers.RefusedFrame | SPL251-Assignment3-student-template/server/src/main/java/bgu/spl/net/impl/stomp/StompMessagingProtocolImpl.java:39-252 | every refused frame, CONNECT, SEND, SUBSCRIBE, UNSUBSCRIBE, DISCONNECT or unknown, gives its sender one ERROR frame with the message header and body of the first test it fails, written out, and changes nothing else |
| BrokerAnswers.AcceptedConnect | SPL251-Assignment3-student-template/server/src/main/java/bgu/spl/net/impl/stomp/StompMessagingProtocolImpl.java:75-120 | an accepted CONNECT registers the connection, its login and passcode, and answers CONNECTED with version 1.2 |
| BrokerAnswers.AcceptedDisconnect | SPL251-Assignment3-student-template/server/src/main/java/bgu/spl/net/impl/stomp/StompMessagingProtocolImpl.java:216-266 | an accepted DISCONNECT is answered by one RECEIPT with the frame's receipt as receipt-id, ends the session and frees exactly its own logins |
| BrokerAnswers.AcceptedSubscribe | SPL251-Assignment3-student-template/server/src/main/java/bgu/spl/net/impl/stomp/StompMessagingProtocolImpl.java:124-147 | an accepted SUBSCRIBE is not answered; a new channel, /null without destination, joins the subscriptions with the id, and the sender the channel |
| BrokerAnswers.AcceptedUnsubscribe | SPL251-Assignment3-student-template/server/src/main/java/bgu/spl/net/impl/stomp/StompMessagingProtocolImpl.java:151-180 | an accepted UNSUBSCRIBE is not answered; a subscription with the number goes, the sender leaves the channel, an empty channel goes too |
| BrokerAnswers.AcceptedSendIs | SPL251-Assignment3-student-template/server/src/main/java/bgu/spl/net/impl/stomp/StompMessagingProtocolImpl.java:203-213 | an accepted SEND gives each registered subscriber one MESSAGE, written out header by header, and nobody else anything |
| BrokerAnswers.EveryFrameIsAnswered | SPL251-Assignment3-student-template/server/src/main/java/bgu/spl/net/impl/stomp/StompMessagingProtocolImpl.java:39-266 | over runs: each frame adds to its sender's outbox exactly its answer, nothing for SUBSCRIBE and UNSUBSCRIBE, and nothing to anybody else's |
| BrokerRuns.ServerStepKeepsInv | SPL251-Assignment3-student-template/server/src/main/java/bgu/spl/net/impl/stomp/StompMessagingProtocolImpl.java:39-241 | accepting, processing a frame (even a buffered one after close) and closing abruptly keep registry, sessions and logins consistent |
| BrokerRuns.RegistryAgrees | SPL251-Assignment3-student-template/server/src/main/java/bgu/spl/net/srv/ConnectionsImpl.java:39-71 | in every run: no channel names a connection twice, it names one only if the connection has subscribed, and until the connection is closed also if |
| BrokerRuns.CloseRemovesEverywhere | SPL251-Assignment3-student-template/server/src/main/java/bgu/spl/net/srv/ConnectionsImpl.java:39-53 | closing leaves the id in no client entry and no channel, leaves every other member in place, and closing again changes nothing |
| BrokerRuns.IdsCountAccepts | SPL251-Assignment3-student-template/server/src/main/java/bgu/spl/net/srv/Reactor.java:104-104 | the sessions are those of the connections accepted so far, numbered from zero |
| BrokerRuns.LoginsAgree | SPL251-Assignment3-student-template/server/src/main/java/bgu/spl/net/impl/stomp/StompMessagingProtocolImpl.java:75-120 | a session is connected exactly when a login maps to it, only one does, and logged-in names are registered |
| BrokerRuns.PasscodesNeverChange | SPL251-Assignment3-student-template/server/src/main/java/bgu/spl/net/srv/ConnectionsImpl.java:102-104 | a registered passcode is never changed or forgotten |
| BrokerRuns.ConnectMatchesPasscode | SPL251-Assignment3-student-template/server/src/main/java/bgu/spl/net/impl/stomp/StompMessagingProtocolImpl.java:75-120 | a session becomes connected only by its own CONNECT, with a free login and the passcode registered for it at all times |
| BrokerRuns.ExactFanOut | SPL251-Assignment3-student-template/server/src/main/java/bgu/spl/net/impl/stomp/StompMessagingProtocolImpl.java:183-213 | over runs: every open connection gets exactly one MESSAGE if and only if it has subscribed, and nobody gets two or an unrelated one |
| BrokerRuns.ReceiverSeesSendersNumber | SPL251-Assignment3-student-template/server/src/main/java/bgu/spl/net/impl/stomp/StompMessagingProtocolImpl.java:203-213 | a receiver finds its own subscription number in a MESSAGE if and only if it is the same as the sender's |
| BrokerRuns.RefusedSendTellsSender | SPL251-Assignment3-student-template/server/src/main/java/bgu/spl/net/impl/stomp/StompMessagingProtocolImpl.java:183-201 | over runs: the next state differs from this one by the sender's ERROR frame, of the first test failed, and by a repeated close if the session had ended before |
| BrokerRuns.OnlySubscribersReceive | SPL251-Assignment3-student-template/server/src/main/java/bgu/spl/net/impl/stomp/StompMessagingProtocolImpl.java:203-213 | every MESSAGE ever put into an outbox went, when it was sent, to a connection subscribed to its destination |
| BrokerRuns.MessageIdsIncrease | SPL251-Assignment3-student-template/server/src/main/java/bgu/spl/net/impl/stomp/StompMessagingProtocolImpl.java:203-208 | while fewer than 2^31 SEND frames have been accepted, the counter is their number and each receiver's message ids strictly increase |
| BrokerRuns.NextIdGrows | SPL251-Assignment3-student-template/server/src/main/java/bgu/spl/net/impl/stomp/StompMessagingProtocolImpl.java:203-203 | the next id is larger than the last exactly as long as the 32-bit counter has not wrapped |
| BrokerRuns.AbruptCloseKeepsLogin | SPL251-Assignment3-student-template/server/src/main/java/bgu/spl/net/srv/NonBlockingConnectionHandler.java:99-103 | a connection that breaks without giving its login back keeps it: every later CONNECT with it is refused |
| BrokerRuns.LoginEndsIff | SPL251-Assignment3-student-template/server/src/main/java/bgu/spl/net/impl/stomp/StompMessagingProtocolImpl.java:216-241 | a login is gone after a step if and only if the step is a DISCONNECT frame with a receipt header from its connection |
| BrokerRuns.LoginLastsIff | SPL251-Assignment3-student-template/server/src/main/java/bgu/spl/net/impl/stomp/StompMessagingProtocolImpl.java:216-241 | over runs: a login lasts from one time to another if and only if no such frame comes in between |
| BrokerRuns.LockedOut | SPL251-Assignment3-student-template/server/src/main/java/bgu/spl/net/srv/NonBlockingConnectionHandler.java:99-103 | a concrete run: log in, break the connection, come back with the right passcode, and be refused |
| BrokerObjects.ConnectionHandler.Close | SPL251-Assignment3-student-template/server/src/main/java/bgu/spl/net/srv/NonBlockingConnectionHandler.java:121-128 | closing a handler disconnects it, the registry ends as the specification says, and the set of closed handlers grows by exactly this one |
| BrokerObjects.ConnectionsImpl.Disconnect | SPL251-Assignment3-student-template/server/src/main/java/bgu/spl/net/srv/ConnectionsImpl.java:39-53 | terminates on the number of clients, ends as the specification says, and closes the registered handler of the id and no other |
| BrokerObjects.ConnectionsImpl.RemoveSubscriber | SPL251-Assignment3-student-template/server/src/main/java/bgu/spl/net/srv/ConnectionsImpl.java:41-43 | the loop removes the first occurrence from every list |
| BrokerObjects.ConnectionsImpl.Send | SPL251-Assignment3-student-template/server/src/main/java/bgu/spl/net/srv/ConnectionsImpl.java:16-23 | the message goes to the registered handler, if any, and the result says whether there is one |
| BrokerObjects.ConnectionsImpl.SendToChannel | SPL251-Assignment3-student-template/server/src/main/java/bgu/spl/net/srv/ConnectionsImpl.java:26-35 | each subscriber in the list is sent the message in turn |
| BrokerObjects.ConnectionsImpl.SubscribeToChannel | SPL251-Assignment3-student-template/server/src/main/java/bgu/spl/net/srv/ConnectionsImpl.java:57-60 | the id is appended to the channel, which is created if absent |
| BrokerObjects.ConnectionsImpl.UnsubscribeFromChannel | SPL251-Assignment3-student-template/server/src/main/java/bgu/spl/net/srv/ConnectionsImpl.java:63-71 | the first occurrence goes, and the channel with it when that was the last |
| BrokerObjects.ConnectionsImpl.LoginUser | SPL251-Assignment3-student-template/server/src/main/java/bgu/spl/net/srv/ConnectionsImpl.java:78-80 | an existing login is not replaced |
| BrokerObjects.ConnectionsImpl.LogoutUser | SPL251-Assignment3-student-template/server/src/main/java/bgu/spl/net/srv/ConnectionsImpl.java:82-84 | all logins of the connection go and no others |
| BrokerObjects.ConnectionsImpl.AddValidCredentials | SPL251-Assignment3-student-template/server/src/main/java/bgu/spl/net/srv/ConnectionsImpl.java:102-104 | an existing passcode is not replaced |
| BrokerObjects.ConnectionsImpl.AddClient | SPL251-Assignment3-student-template/server/src/main/java/bgu/spl/net/srv/ConnectionsImpl.java:86-88 | the handler is registered under its id |
| BrokerObjects.MessageCounter.IncrementAndGet | SPL251-Assignment3-student-template/server/src/main/java/bgu/spl/net/impl/stomp/StompMessagingProtocolImpl.java:203-203 | one is added on 32 bits, with wrap-around, and the new value returned |
| BrokerObjects.StompMessagingProtocolImpl.HandleConnect | SPL251-Assignment3-student-template/server/src/main/java/bgu/spl/net/impl/stomp/StompMessagingProtocolImpl.java:75-120 | session and registry change as the specification of the frame says, branch by branch |
| BrokerObjects.StompMessagingProtocolImpl.HandleSubscribe | SPL251-Assignment3-student-template/server/src/main/java/bgu/spl/net/impl/stomp/StompMessagingProtocolImpl.java:124-147 | as the specification says, including the text null for a missing destination |
| BrokerObjects.StompMessagingProtocolImpl.FindSubscription | SPL251-Assignment3-student-template/server/src/main/java/bgu/spl/net/impl/stomp/StompMessagingProtocolImpl.java:160-166 | some destination with the number is found if and only if there is one, whatever the iteration order |
| BrokerObjects.StompMessagingProtocolImpl.HandleUnsubscribe | SPL251-Assignment3-student-template/server/src/main/java/bgu/spl/net/impl/stomp/StompMessagingProtocolImpl.java:151-180 | as the specification says for some destination the iteration can stop at |
| BrokerObjects.StompMessagingProtocolImpl.HandleSend | SPL251-Assignment3-student-template/server/src/main/java/bgu/spl/net/impl/stomp/StompMessagingProtocolImpl.java:183-213 | as the specification says, with the tests in the source's order |
| BrokerObjects.StompMessagingProtocolImpl.HandleDisconnect | SPL251-Assignment3-student-template/server/src/main/java/bgu/spl/net/impl/stomp/StompMessagingProtocolImpl.java:216-241 | as the specification says: receipt, end of session, logout, subscriptions dropped |
| BrokerObjects.StompMessagingProtocolImpl.HandleError | SPL251-Assignment3-student-template/server/src/main/java/bgu/spl/net/impl/stomp/StompMessagingProtocolImpl.java:243-252 | an ERROR frame with the texts of the fault goes to the sender |
| BrokerObjects.StompMessagingProtocolImpl.Process | SPL251-Assignment3-student-template/server/src/main/java/bgu/spl/net/impl/stomp/StompMessagingProtocolImpl.java:39-66 | one frame changes session, registry and counter as one step of the specification |
| BrokerObjects.Reactor.HandleAccept | SPL251-Assignment3-student-template/server/src/main/java/bgu/spl/net/srv/Reactor.java:99-121 | the objects make the specification's accept step |
| BrokerObjects.Reactor.ProcessMessage | SPL251-Assignment3-student-template/server/src/main/java/bgu/spl/net/srv/NonBlockingConnectionHandler.java:87-92 | processing a message and closing when the session has ended is exactly one frame step of the server |
| BrokerObjects.Reactor.ReadFailed | SPL251-Assignment3-student-template/server/src/main/java/bgu/spl/net/srv/NonBlockingConnectionHandler.java:99-103 | a failed read is exactly the abrupt-close step |
| Decimal.ParsePrinted | SPL251-Assignment3-student-template/server/src/main/java/bgu/spl/net/impl/stomp/StompMessagingProtocolImpl.java:138-138 | parsing a printed integer gives it back exactly when it fits 32 bits |
| Decimal.ParseIntIff | SPL251-Assignment3-student-template/server/src/main/java/bgu/spl/net/impl/stomp/StompMessagingProtocolImpl.java:138-138 | exactly the texts made of an optional sign, zeros and the digits of a 32-bit integer are parsed, to that integer |
| Decimal.StolPrinted | SPL251-Assignment3-student-template/client/src/StompProtocol.cpp:182-182 | std::stol of a printed long gives it back |
| Decimal.StolIff | SPL251-Assignment3-student-template/client/src/StompProtocol.cpp:182-182 | exactly the texts that start with white space and a 64-bit integer are read by std::stol, as that integer |
| CreateFrames.SubscribeFrameParses | SPL251-Assignment3-student-template/client/src/CreateFrames.cpp:20-27 | the server parses the SUBSCRIBE frame to its destination, id and receipt |
| CreateFrames.UnsubscribeFrameParses | SPL251-Assignment3-student-template/client/src/CreateFrames.cpp:29-35 | the server parses the UNSUBSCRIBE frame to its id and receipt |
| CreateFrames.DisconnectFrameParses | SPL251-Assignment3-student-template/client/src/CreateFrames.cpp:69-74 | the server parses the DISCONNECT frame to its receipt |
| CreateFrames.ParseMessageLoop | SPL251-Assignment3-student-template/client/src/CreateFrames.cpp:76-102 | the line loop computes the recursive header collection that the event theorems are about |
| ClientSession.StompProtocol.Subscribe | SPL251-Assignment3-student-template/client/src/StompProtocol.cpp:108-129 | the object: ids are used up even when sending fails, the map only changes when the frame was taken |
| ClientSession.StompProtocol.Unsubscribe | SPL251-Assignment3-student-template/client/src/StompProtocol.cpp:131-154 | the entry goes only when the frame was taken |
| ClientSession.StompProtocol.Disconnect | SPL251-Assignment3-student-template/client/src/StompProtocol.cpp:77-105 | one DISCONNECT frame, and the client's subscriptions are dropped |
| ClientSession.StompProtocol.Send | SPL251-Assignment3-student-template/client/src/StompProtocol.cpp:291-318 | a SEND frame only when connected and subscribed, to the destination with a slash in front |
| ClientSession.ProcessIsLocal | SPL251-Assignment3-student-template/server/src/main/java/bgu/spl/net/impl/stomp/StompMessagingProtocolImpl.java:124-241 | but for CONNECT, a frame's effect on a session does not depend on the rest of the server nor, with distinct numbers, on the iteration order |
| SessionAgreement.LinkStepKeepsInv | SPL251-Assignment3-student-template/client/src/StompProtocol.cpp:77-154 | byte by byte: every client operation whose frame is what it is meant to be, every byte decoded and every other server step keeps the session invariant |
| SessionAgreement.DistributedAgreement | SPL251-Assignment3-student-template/client/src/StompProtocol.cpp:77-154 | at any time the bytes in flight decode to the frames handed over, one message each, and letting them land turns the server's subscriptions into exactly the client's with a slash in front, with pairwise different numbers |
| SessionAgreement.QuietAgreement | SPL251-Assignment3-student-template/client/src/StompProtocol.cpp:108-154 | with nothing in flight, an open connection is in a channel exactly when the client thinks it has subscribed |
| SessionSends.ClientIsItsCalls | SPL251-Assignment3-student-template/client/src/StompProtocol.cpp:77-154 | from the calls alone: a destination is among the client's subscriptions if and only if the latest call for it that was sent is a subscription, before any disconnect |
| SessionSends.QuietIsWanted | SPL251-Assignment3-student-template/client/src/StompProtocol.cpp:77-154 | with nothing in flight, an open connection is in a channel exactly if the client's calls ask for it |
| SessionSends.SilentOnceDisconnected | SPL251-Assignment3-student-template/client/src/StompProtocol.cpp:77-154 | after a disconnect the client hands nothing over |
| SessionSends.NumbersCountCalls | SPL251-Assignment3-student-template/client/src/StompProtocol.cpp:77-154 | from the calls alone: receipt numbers count the calls that ask for something, subscription numbers those that ask to subscribe, and a subscription has the number of the call that made it |
| SendHeaders.SendFrameHeaders | SPL251-Assignment3-student-template/client/src/CreateFrames.cpp:37-65 | every header of every SEND frame that parses, for any body: what the lines of the user's text give it, and else destination, receipt and user as meant |
| SessionSends.SendGoesToItsChannel | SPL251-Assignment3-student-template/client/src/StompProtocol.cpp:291-318 | in a clean session the SEND of a call names the server's subscription with the client's number for that destination, if and only if no line of the user's text names another destination |
| SessionSends.OneLineUserStays | SPL251-Assignment3-student-template/client/src/CreateFrames.cpp:37-65 | a body whose user is all on one line replaces no header |
| SessionSends.BodyRedirects | SPL251-Assignment3-student-template/client/src/CreateFrames.cpp:37-65 | a concrete body whose frame goes to another destination |
| SessionSends.EventIsAccepted | SPL251-Assignment3-student-template/client/src/StompProtocol.cpp:291-358 | what a client hands over for an event on a channel it has subscribed to parses to the event's message, and the server's session accepts it |
| SessionSends.ReceiptsDiffer | SPL251-Assignment3-student-template/client/src/StompProtocol.cpp:77-318 | no two clean frames of a session ask for the same receipt |
| SessionAgreement.SubscribeAgreesIff | SPL251-Assignment3-student-template/client/src/CreateFrames.cpp:20-27 | for a new destination the agreement survives the SUBSCRIBE if and only if it has neither a newline nor a NUL |
| SessionAgreement.AgreementSurvivesIff | SPL251-Assignment3-student-template/client/src/StompProtocol.cpp:77-154 | after any step each frame handed over still arrives as one message and the landed subscriptions are the client's, if and only if the step's frame, if any, is what it is meant to be: a SUBSCRIBE to one line without NUL, a SEND that parses and has no NUL |
| SessionAgreement.FirstUncleanFrameEndsIt | SPL251-Assignment3-student-template/client/src/StompProtocol.cpp:77-154 | over sessions: the first frame that is not so is what ends this agreement of frames and subscriptions, and nothing before does; what it does to the subscriptions alone is in SessionAftermath |
| SessionAftermath.ThrowingFrameIsTheEnd | SPL251-Assignment3-student-template/server/src/main/java/bgu/spl/net/impl/stomp/StompMessageEncoderDecoder.java:13-23 | over sessions: after a frame that throws no further frame of the connection lands, whatever is sent or lost, so that the two sides have the same subscriptions later if and only if the client's are exactly those it had then |
| SessionAftermath.SendAgreesIff | SPL251-Assignment3-student-template/client/src/CreateFrames.cpp:37-65 | after any SEND at all, clean or not, the two sides have the same subscriptions if and only if the messages its bytes decode to change none |
| SessionWire.ArrivesIff | SPL251-Assignment3-student-template/server/src/main/java/bgu/spl/net/impl/stomp/StompMessageEncoderDecoder.java:13-23 | to a decoder that is ready, an ASCII text and its terminator arrive as one message, with the decoder ready again, if and only if the text parses and has no NUL |
| StuckDecoder.LineWithoutColonThrows | SPL251-Assignment3-student-template/server/src/main/java/bgu/spl/net/impl/stomp/StompMessageEncoderDecoder.java:44-50 | a line without a colon, before the first empty line after the command, makes a frame throw, whatever is behind it |
| StuckDecoder.StuckIff | SPL251-Assignment3-student-template/server/src/main/java/bgu/spl/net/impl/stomp/StompMessageEncoderDecoder.java:34-56 | a text throws whatever is put behind it if and only if it throws with a colon put behind it |
| StuckDecoder.WholeLinesStuck | SPL251-Assignment3-student-template/server/src/main/java/bgu/spl/net/impl/stomp/StompMessageEncoderDecoder.java:34-56 | a text of whole lines that throws is such a text, unless its first line is empty |
| StuckDecoder.StuckForGood | SPL251-Assignment3-student-template/server/src/main/java/bgu/spl/net/impl/stomp/StompMessageEncoderDecoder.java:13-23 | a decoder that holds such a text, and goes on after every exception, returns no message for any further bytes |
| StuckDecoder.GoesOn | SPL251-Assignment3-student-template/server/src/main/java/bgu/spl/net/impl/stomp/StompMessageEncoderDecoder.java:13-23 | up to the first exception the decoder that goes on is the one that stops there |
| SessionExamples.NewlineBodyThrows | SPL251-Assignment3-student-template/client/src/CreateFrames.cpp:37-65 | a concrete SEND frame, its body's user followed by a second line, that throws |
| SessionExamples.NothingLandsBehind | SPL251-Assignment3-student-template/server/src/main/java/bgu/spl/net/impl/stomp/StompMessageEncoderDecoder.java:14-17 | the decoder that is given that frame and goes on after the exception, with the text it has kept, never returns a message again, whatever bytes come |
| SessionExamples.NewlineBodyEndsAgreement | SPL251-Assignment3-student-template/client/src/CreateFrames.cpp:37-65 | handing it over ends the agreement of any session that may send it |
| SessionExamples.NulBodyIsTwoFrames | SPL251-Assignment3-student-template/client/src/ConnectionHandler.cpp:99-103 | a concrete SEND body with a NUL decodes to a SEND and an UNSUBSCRIBE |
| SessionExamples.NulBodyUnsubscribes | SPL251-Assignment3-student-template/server/src/main/java/bgu/spl/net/impl/stomp/StompMessagingProtocolImpl.java:151-180 | the second of them takes a subscription away that the client keeps |
| SessionAgreement.LostDisconnectDisagrees | SPL251-Assignment3-student-template/client/src/StompProtocol.cpp:89-103 | a DISCONNECT frame that is lost breaks the agreement exactly when there were subscriptions |
| Handshake.ConnectFrameParses | SPL251-Assignment3-student-template/client/src/CreateFrames.cpp:9-17 | the server parses the CONNECT frame to version, host, login and passcode |
| Handshake.ConnectArrivesIff | SPL251-Assignment3-student-template/server/src/main/java/bgu/spl/net/impl/stomp/StompMessageEncoderDecoder.java:13-23 | as bytes the CONNECT frame arrives whole if and only if neither user name nor password has a NUL |
| Handshake.AnswerIsSent | SPL251-Assignment3-student-template/server/src/main/java/bgu/spl/net/impl/stomp/StompMessagingProtocolImpl.java:75-120 | the server answers a CONNECT with exactly one frame, CONNECTED exactly if the session is then connected |
| Handshake.HandshakeAgreesIff | SPL251-Assignment3-student-template/client/src/StompProtocol.cpp:57-73 | the client, which searches the answer for CONNECTED, agrees with the server unless a wrong password was given for a user name that contains that word, and only then not |
| Search.FindsFirst | SPL251-Assignment3-student-template/client/src/StompProtocol.cpp:164-164 | std::string::find: nothing occurs before the position found |
| Search.ExtractFromLines | SPL251-Assignment3-student-template/client/src/StompProtocol.cpp:163-171 | the value extracted is that of the first line with the marker |
| Search.MarkerInLine | SPL251-Assignment3-student-template/client/src/StompProtocol.cpp:189-190 | where a marker can occur in a labelled line: at the end of the label or inside the text |
| Events.BuildBody | SPL251-Assignment3-student-template/client/src/StompProtocol.cpp:344-355 | the body is the seven fixed lines and one line per entry of the general information, in the map's order |
| EventPipeline.EventReachesServer | SPL251-Assignment3-student-template/client/src/CreateFrames.cpp:37-65 | the SEND frame for an event, whose user header swallows the body, still decodes to one message with destination, user and trimmed body, which the server publishes |
| EventDelivery.FieldSurvives | SPL251-Assignment3-student-template/client/src/StompProtocol.cpp:163-176 | a field of the body is extracted unchanged whatever the order of the frame's headers |
| EventMeaning.FlagInText | SPL251-Assignment3-student-template/client/src/StompProtocol.cpp:189-190 | a flag is read as true if and only if a line of the general information has its marker |
| EventMeaning.ParsedEvent | SPL251-Assignment3-student-template/client/src/StompProtocol.cpp:155-221 | channel, city, name, date and description are parsed back, the owner is the user, and the general information is the two flags, as their lines say, and nothing else |
| EventMeaning.FlagMeansSet | SPL251-Assignment3-student-template/client/src/StompProtocol.cpp:189-194 | the flag read is the flag set if and only if it was set or no line reads like it; for keys without colon: or no key ending in its name has a value starting with true and no value has the marker inside |
| EventMeaning.LineReadsIff | SPL251-Assignment3-student-template/client/src/StompProtocol.cpp:189-190 | when any line of the general information, cut at its first colon, reads as a flag |
| EventMeaning.InfoSurvivesIff | SPL251-Assignment3-student-template/client/src/StompProtocol.cpp:155-221 | the general information survives delivery if and only if it is the two flags, both of them, each true or false |
| EventMeaning.InactiveReadAsActive | SPL251-Assignment3-student-template/client/src/StompProtocol.cpp:189-189 | a concrete event, its only entry inactive:true, is delivered and parsed as active |
| EventMeaning.MessageHeaders | SPL251-Assignment3-student-template/client/src/CreateFrames.cpp:76-102 | the client's header map of a MESSAGE frame is the server's, with the command |
| EventMeaning.EventSurvives | SPL251-Assignment3-student-template/client/src/StompProtocol.cpp:155-221 | end to end: from body through SEND, server, MESSAGE and parser to the client's store, for every header order, every field survives, and each flag if and only if it was set or nothing else reads like it |
| EventJourney.EventArrivesIff | SPL251-Assignment3-student-template/client/src/CreateFrames.cpp:37-65 | the event's SEND frame, as bytes into the server's decoder, is one message with the decoder ready again if and only if no text of the event has a NUL |
| EventJourney.FrameIsReadIff | SPL251-Assignment3-student-template/client/src/ConnectionHandler.cpp:80-96 | an ASCII text and its terminator at the head of a stream are read by the client as that text if and only if it has no NUL |
| EventJourney.GetFrame | SPL251-Assignment3-student-template/client/src/ConnectionHandler.cpp:80-96 | the byte loop reads the text up to the first NUL, or fails if there is none |
| EventJourney.EventTravels | SPL251-Assignment3-student-template/client/src/StompProtocol.cpp:155-221 | the same in bytes and in any run of the server, from what sendMessage hands over: decoded, fanned out to exactly the open subscribers, read off the receiver's stream and stored with its meaning |
| EventMeaning.EventStore.Receive | SPL251-Assignment3-student-template/client/src/StompProtocol.cpp:225-289 | the store grows by one parsed event for a MESSAGE with destination and user, and is unchanged otherwise |
| EventHistory.StoreIsHistory | SPL251-Assignment3-student-template/client/src/StompProtocol.cpp:225-289 | after any frames, a channel has the events it had and then those of the MESSAGE frames for it, one each and in order; nothing is ever removed or changed |
| EventHistory.UnchangedIff | SPL251-Assignment3-student-template/client/src/StompProtocol.cpp:225-289 | a frame leaves the store as it is if and only if it is not a MESSAGE with destination and user and without receipt |
| EventHistory.OtherFramesStoreNothing | SPL251-Assignment3-student-template/client/src/StompProtocol.cpp:230-240 | a printed frame of another command stores nothing, whatever its body |
| EventHistory.DateIsRead | SPL251-Assignment3-student-template/client/src/StompProtocol.cpp:178-186 | in any message: the date is the number behind its first marker, kept modulo 2^32, or zero if none starts there |
| EventHistory.SectionIsRead | SPL251-Assignment3-student-template/client/src/StompProtocol.cpp:188-209 | in any message: the general information is the two flags and, if there is a colon behind its first marker on that line, the entry it makes |
| ObjectCodec.ObjectsRoundTrip | SPL251-Assignment3-student-template/server/src/main/java/bgu/spl/net/impl/rci/ObjectEncoderDecoder.java:20-39 | any encoded objects back to back, of 1 to 2^31-1 bytes each that deserialize, decode to exactly those |
| ObjectCodec.RoundTripsIff | SPL251-Assignment3-student-template/server/src/main/java/bgu/spl/net/impl/rci/ObjectEncoderDecoder.java:22-36 | one object comes back if and only if its serialization is not empty and deserializes; after one that does not, every further byte throws |
| ObjectCodec.GetPut | SPL251-Assignment3-student-template/server/src/main/java/bgu/spl/net/impl/rci/ObjectEncoderDecoder.java:25-71 | the big-endian length read is the length written |
| ObjectCodec.GetIntIs | SPL251-Assignment3-student-template/server/src/main/java/bgu/spl/net/impl/rci/ObjectEncoderDecoder.java:26-26 | any four bytes are read as a big-endian two's complement number |
| ObjectCodec.ObjectEncoderDecoder.DecodeNextByte | SPL251-Assignment3-student-template/server/src/main/java/bgu/spl/net/impl/rci/ObjectEncoderDecoder.java:20-39 | the array-based decoder is the state machine, with every index in bounds except where the original throws |
| ObjectCodec.ObjectEncoderDecoder.PutLength | SPL251-Assignment3-student-template/server/src/main/java/bgu/spl/net/impl/rci/ObjectEncoderDecoder.java:22-28 | the four-byte prefix, and the array it allocates; a negative length throws and leaves the prefix buffer full |
| ObjectCodec.ObjectEncoderDecoder.PutPayload | SPL251-Assignment3-student-template/server/src/main/java/bgu/spl/net/impl/rci/ObjectEncoderDecoder.java:30-35 | one payload byte, and with the last the object or, if it does not deserialize, an exception that leaves the payload in place |
| ObjectCodec.ObjectEncoderDecoder.SerializeObject | SPL251-Assignment3-student-template/server/src/main/java/bgu/spl/net/impl/rci/ObjectEncoderDecoder.java:56-72 | the result is the length prefix and the payload |
| LineCodec.PoppedLinesAreTheSplit | SPL251-Assignment3-student-template/server/src/main/java/bgu/spl/net/impl/echo/LineMessageEncoderDecoder.java:12-21 | over any stream that does not throw the popped lines and the pending one are its newline-split |
| LineCodec.OkIffLinesFit | SPL251-Assignment3-student-template/server/src/main/java/bgu/spl/net/impl/echo/LineMessageEncoderDecoder.java:29-35 | a stream throws if and only if it has more than 2^30 bytes in a row without a newline, where the doubled capacity overflows |
| LineCodec.DoublingBuffer | SPL251-Assignment3-student-template/server/src/main/java/bgu/spl/net/impl/echo/LineMessageEncoderDecoder.java:29-34 | growth has copied exactly capacity - 1024 bytes in all; the capacity is 1024 doubled some number of times, never above 2^30, and 1024 or less than twice the longest line |
| LineCodec.LongestIsLongest | SPL251-Assignment3-student-template/server/src/main/java/bgu/spl/net/impl/echo/LineMessageEncoderDecoder.java:29-43 | the length in that bound is that of the longest line or part of a line seen |
| LineCodec.LinesRoundTrip | SPL251-Assignment3-student-template/server/src/main/java/bgu/spl/net/impl/echo/LineMessageEncoderDecoder.java:24-26 | encoded lines of at most 2^30 bytes decode to themselves |
| LineCodec.LineMessageEncoderDecoder.DecodeNextByte | SPL251-Assignment3-student-template/server/src/main/java/bgu/spl/net/impl/echo/LineMessageEncoderDecoder.java:12-21 | the array-based decoder is the state machine |
| LineCodec.LineMessageEncoderDecoder.PushByte | SPL251-Assignment3-student-template/server/src/main/java/bgu/spl/net/impl/echo/LineMessageEncoderDecoder.java:29-35 | the byte is appended, into an array twice as large when full; when twice as large overflows 32 bits it throws and nothing changes |
| LineCodec.LineMessageEncoderDecoder.CopyOf | SPL251-Assignment3-student-template/server/src/main/java/bgu/spl/net/impl/echo/LineMessageEncoderDecoder.java:31-31 | the copy starts with the original |
| LineCodec.LineMessageEncoderDecoder.PopString | SPL251-Assignment3-student-template/server/src/main/java/bgu/spl/net/impl/echo/LineMessageEncoderDecoder.java:37-43 | the bytes collected are returned and the buffer is empty |

## Left out

- Sockets, NIO channels and Boost.Asio: a read returns any chunk or fails, a write accepts any prefix, the
  client's channel is a reliable FIFO of bytes; a send can fail as a whole, except of a DISCONNECT frame in
  `SessionAgreement.DistributedAgreement`, where `SessionAgreement.LostDisconnectDisagrees` says what a failure does.
- What a decoder returns after an exception from a text that is not stuck: the wire theorems end there, with the `ok`
  flag. From the texts that the client's frames leave behind nothing is ever returned (`StuckDecoder.WholeLinesStuck`).
- Start-up wiring, `BaseServer`, the echo, newsfeed and RCI programs: they only connect the parts.
- Non-ASCII text in sessions and events: decoding widens bytes where encoding writes UTF-8, so it never survives
  (`WideText.WireRoundTripIff`), and the theorems about sessions and events ask for ASCII.
- Interleavings inside `ConnectionsImpl`: a frame is one step. The code does not keep the registry consistent
  under finer ones (unsubscribe's test for empty and removal against subscribe's putIfAbsent and get).
- Registry clean-up of the thread-per-client server: its handler ends without calling disconnect.
- Shutdown of the pool, which drops work, and cancelled selection keys: the output path is about open connections.
- The sections under the pool's read-write lock are single steps, as are calls on the concurrent collections.
- The bytes of one `process` call are handed to the handler as one step of the broker; that the encoded bytes
  then reach the channel is the separate output path.
- Connection ids and the client's receipt ids are unbounded; the message counter and subscription ids are 32 bits wide.
- The client's command loop, threads, log, timestamps and summary files: user interface.
- Sorting the events by date before they are sent, and reading them from JSON (its library is not part of
  this model); the `Event` constructor from text, which is no inverse of the printer.
- `EventDelivery.FieldSurvives`: asks for texts without newline, semicolon or field marker, because the printed body
  escapes nothing.
- Java serialization itself: which payloads deserialize is a parameter of the object codec.
- STOMP 1.2 beyond what the code does: escaping, content-length, heart-beating, acknowledgements.
- Ending `Thread.sleep(100)` early in the DISCONNECT handler, and the moment between receipt and close.
