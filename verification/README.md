# Control protocol: a Dafny model and its proofs

Two nodes of the control protocol exchange framed messages over connections that break and are replaced, and
acknowledge each message by its uuid. A controller keeps a pool of such connections, stores the notifications it
receives, caches what it sent, and renews the certificates the connections use. This project models that behaviour and
proves what it promises. `dafny verify dfyconfig.toml` checks everything.

| file | what it models |
|---|---|
| `Bytes.dfy`, `Frames.dfy`, `Streams.dfy` | big-endian integers, the frame codec, reading and writing frames on streams that deliver in any chunks and fail anywhere |
| `MessageQueue.dfy` | the queue between the service and the connection loops |
| `AckProtocol.dfy` | two nodes as a step relation: every critical section, channel operation and stretch of bytes is one step, a run is any interleaving |
| `AckInvariant.dfy`, `AckTheorems.dfy` | the invariant of every run and what follows from it |
| `AckAnswers.dfy` | what a call is told, in every run, and runs to every answer |
| `AckAtMostOnce.dfy` | what holds in addition when failed writes leave strict prefixes and handlers ack once |
| `AckPanics.dfy` | what every panic needs, and runs from the initial state that show both conditions are needed and that a failed send may have been handled |
| `Lifecycle.dfy` | the goroutines and channels of a client or server connection |
| `DrivenNodes.dfy` | the two nodes together with the goroutines that drive them |
| `Handlers.dfy` | router, no-op, async-command and notification handlers, composed with the runs of the two nodes |
| `AsyncCommands.dfy`, `AsyncCommandStores.dfy` | identifiers and results of asynchronous commands and their correlation |
| `NestedMaps.dfy`, `NotificationStores.dfy` | nested maps with pruning, and the notification store over them |
| `ConnectionPools.dfy` | the connection pool and its reconciliation |
| `CachingServices.dfy` | the caching service wrapper |
| `Certificates.dfy` | the certificate reconciler |

Assumptions of the two-node model: uuids are fresh; payloads and error texts are shorter than 2^32 bytes; what a node
reads on a connection is a prefix of what the other node wrote on it; a write error after which the writer goes on
writing on the same connection put no byte on the wire, and a read error after which the reader goes on took none off.
In every other respect a write may fail anywhere, also after its last byte. `Frames.TransientCut` proves that a read
error after which the reader goes on loses no message exactly when it comes between two frames, and
`Frames.PayloadReadAsFrame` that inside a frame it can make the reader decode an ack nobody sent. `Acked(None)` is the
model's nil result of a send. A nil payload and an empty payload are one value, as they are on the wire.

The model takes the form of the code. The codec, the queue, the stores, the pool, the cache and the
certificate reconciler are classes and loops proved against functions. The service and the connection loops run
concurrently on shared state and are therefore a step relation over values, not classes.

That a node has one writer and one reader at a time is built into the state of the two-node protocol, in the guards of
`Attach` and `Detach` and the single message in flight. `DrivenNodes.dfy` discharges this: it runs both nodes together
with the goroutines of a client or server each, and every such run is a run of the two-node protocol.

A send can fail although its message was handled (`AckPanics.TimedOutAfterHandling`). The caching wrapper is therefore
modelled with three outcomes of a send: it is lost, it arrives but fails, or it is acked.

Signing a certificate is refused when the CA's private key does not belong to the CA's certificate, as
`x509.CreateCertificate` does, while validation of the CA does not compare the two. The certificate theorems state what
follows from that.

Two comments say more than the code does, and the model follows the code. `Service` is documented to send with
retries, but nothing above the connection sends again. `blockingPoll` is documented to unblock when its context is
closed, but it notices that only on entry or when it is woken.

## Model

| member | source | states |
|---|---|---|
| `Bytes.GetPutUint32` | pkg/message.go:106-120 | the 32-bit length field survives its big-endian encoding, for every value |
| `Bytes.PutUint32IsBigEndian` | pkg/message.go:106 | the four bytes written, read as a base-256 number with the most significant first, are the value |
| `Bytes.GetUint32IsBigEndian` | pkg/message.go:120 | the value read from any four bytes is that number |
| `Frames.NewMessageWellFormed` | pkg/message.go:148-169 | the length field tells the truth exactly when the payload is shorter than 2^32 bytes |
| `Frames.HeaderRoundTrip` | pkg/message.go:88-122 | every header is decoded back from its 24 bytes |
| `Frames.HeaderLayout` | pkg/message.go:88-110 | the header byte by byte: version, flags, zero, opcode, the 16 uuid bytes, the length with its most significant byte first |
| `Frames.HeaderFields` | pkg/message.go:112-122 | which of any 24 bytes each field is read from |
| `Frames.FrameLayout` | pkg/message.go:148-207 | the whole frame of a message with default options: 0, 0, 0, opcode, uuid, length, payload |
| `Frames.DecodeFrame` | pkg/message.go:175-192 | a decoded frame is well formed, lies within the bytes given and takes exactly 24 bytes and its payload |
| `Frames.DecodeEncode` | pkg/message.go:175-207 | a complete frame decodes to its message whatever bytes follow it |
| `Frames.StrictPrefixDecodesToNothing` | pkg/message.go:175-207 | no strict prefix of a frame decodes to a message; on a stream that ended the error is one `isEOF` accepts |
| `Frames.StrictPrefixError` | pkg/message.go:175-192 | the error of a cut frame is EOF exactly before the header and right after it, and unexpected EOF anywhere else |
| `Frames.RoundTripIffLengthFits` | pkg/message.go:148-207 | one message survives the wire if and only if its payload is shorter than 2^32 bytes |
| `Frames.StreamOfFrames` | pkg/message.go:175-207 | reading a concatenation of frames followed by any bytes gives the messages and then whatever those bytes give |
| `Frames.CutStream` | pkg/network/base_connection.go:119-150 | a stream of frames cut anywhere yields exactly the complete messages and then an error that `isEOF` accepts; uncut it yields all |
| `Frames.MessagesOfTurns` | pkg/network/base_connection.go:119-150 | the loop yields the messages of the stream up to an error, and then those after it if and only if that error is transient |
| `Frames.SignalledOfTurns` | pkg/network/base_connection.go:125-142 | every fault of the connection is signalled and the end of the connection is not; reading goes on after a fault exactly if it is transient |
| `Frames.TransientCut` | pkg/network/base_connection.go:119-150 | a transient read error anywhere in a stream of frames loses no message if and only if it comes between two frames |
| `Frames.PayloadReadAsFrame` | pkg/network/base_connection.go:119-150 | a transient read error right after a header makes the reader take the payload for frames: a message whose payload is an encoded ack yields that ack, which nobody sent |
| `Streams.ReadFull` | pkg/message.go:178-188 | for every chunking, `ReadAtLeast` fills the buffer with the next bytes, and reports EOF or unexpected EOF exactly when there are too few |
| `Streams.HeaderFromBytes` | pkg/message.go:112-122 | the header parsed with its copying loop is the decoded header |
| `Streams.ReadFrom` | pkg/message.go:175-192 | for every chunking, the message, the count, the error and the rest of the stream are those of `DecodeFrame` |
| `Streams.ConnRead` | pkg/network/base_connection.go:167-178 | returns a message exactly when a complete frame is there; its length check never fires |
| `Streams.ReadLoop` | pkg/network/base_connection.go:119-150 | for every chunking, every sequence of transient errors and every moment the context is closed, the messages and signalled errors are those of the turns of the stream in order; it stops early exactly when the context is closed |
| `Streams.WriteHeader` | pkg/message.go:88-110 | the three writes put a prefix of the header on the wire, all of it on success, laid out byte by byte with the most significant length byte first |
| `Streams.WriteTo` | pkg/message.go:194-207 | whatever fails, the wire gains a prefix of the frame of the reported length, the whole frame on success |
| `Streams.ConnWrite` | pkg/network/base_connection.go:180-189 | succeeds exactly when no write failed and the length field is right; a frame out in full may still be reported as failed |
| `MessageQueue.UnboundedMessageQueue.constructor` | pkg/network/message_queue.go:18-22 | a new queue is empty |
| `MessageQueue.UnboundedMessageQueue.Append` | pkg/network/message_queue.go:24-29 | the message goes to the end |
| `MessageQueue.UnboundedMessageQueue.Prepend` | pkg/network/message_queue.go:31-36 | the message goes to the front |
| `MessageQueue.UnboundedMessageQueue.BlockingPoll` | pkg/network/message_queue.go:40-56 | over all wake-ups nothing but the returned head leaves the queue; nil only if the context was found closed; the head at once if there is one |
| `AckInvariant.PutBytesWire` | pkg/network/base_connection.go:93-118 | writing frames bit by bit keeps a wire whole frames followed by something that never decodes |
| `AckInvariant.DecodeNext` | pkg/network/base_connection.go:119-150 | however much of a wire is visible, what is decoded is its next full frame |
| `AckInvariant.KeepInvariant` | pkg/service/service.go:76-192 | every step of either node keeps the invariant of queues, wires, pending sends, ack channels and origins of messages |
| `AckInvariant.InvariantAlong` | pkg/service/service.go:76-192 | the invariant holds after every run |
| `AckTheorems.ReceivedWasEnqueued` | pkg/network/base_connection.go:93-150 | every message a node receives is one the other node gave to WriteMessage |
| `AckTheorems.AckComesFromHandler` | pkg/service/service.go:152-192 | every received ack answers a call of the receiver: the peer's handler was started on exactly that call's message and acked with what the ack carries |
| `AckTheorems.EndedByHandler` | pkg/service/service.go:98-108 | a call that ends with an ack reports what a handler at the peer acked its message with, also when its channel was closed |
| `AckTheorems.AckSoundness` | pkg/service/service.go:76-108 | in every run a send that returns nil was handled: the peer's handler was started on its opcode and payload and acked without error or with an empty one |
| `AckTheorems.AckErrorSoundness` | pkg/service/service.go:152-178 | in every run an error returned from an ack is the non-empty text a handler of that message acked with |
| `AckTheorems.WriteQueueConservation` | pkg/network/base_connection.go:93-118 | in every run the messages written, then the one in flight, then the queue, are exactly the WriteMessage calls in order |
| `AckTheorems.PendingSends` | pkg/service/service.go:84-108 | in every reachable state `waitingAcks` holds exactly the calls that registered and have not returned, and every received ack is for a call made |
| `AckTheorems.LookupFindsPending` | pkg/service/service.go:153-164 | looking up a received ack finds its channel exactly when the call has not returned |
| `AckTheorems.ChannelHoldsOne` | pkg/service/service.go:85 | in every run at most one signal waits in an ack channel, and while one waits in an open channel no other can be sent |
| `AckAnswers.AnswerIsTheAck` | pkg/service/service.go:98-100 | in every run, whenever a call can take what its channel offers, it ends with exactly what a received ack of its uuid carries |
| `AckAnswers.SignalledCallCanEnd` | pkg/service/service.go:162-164 | a waiting call can take its answer as soon as that was sent on its channel |
| `AckAnswers.AnswerIsFinal` | pkg/service/service.go:91-108 | whatever happens after a call has ended, it keeps its outcome, which is what it returns |
| `AckAnswers.FailedWriteIsUndone` | pkg/network/base_connection.go:102-116 | a write that fails before its first byte puts everything back, and the writer goes on exactly if the error is transient |
| `AckAnswers.SendCanSucceed` | pkg/service/service.go:76-192 | for every call there is a run of nodes with no-op handlers in which it returns nil |
| `AckAnswers.SendCanFailWith` | pkg/service/service.go:76-192 | for every call and every non-empty text there is a run in which it returns that text as the error |
| `AckAnswers.SendCanGiveUp` | pkg/service/service.go:101-107 | for every call there is a run in which it is cancelled and one in which it times out |
| `AckAtMostOnce.EachDecodedOnce` | pkg/network/base_connection.go:93-150 | no request and no ack is decoded twice |
| `AckAtMostOnce.ReadyIfOnce` | pkg/service/service.go:153-164 | a goroutine about to send on an ack channel finds it empty and open, one about to close it finds it open |
| `AckAtMostOnce.ChannelUsedOnce` | pkg/service/service.go:85-94 | an ack channel is sent on at most once and closed at most once |
| `AckAtMostOnce.KeepOnce` | pkg/service/service.go:76-192 | every disciplined step keeps frames, uuids and acks unique |
| `AckAtMostOnce.AtMostOnce` | pkg/service/service.go:85-178 | in every disciplined run: each uuid decoded at most once each way, channels used once, the one-slot buffer never blocks, nothing is sent after a close, no panic |
| `AckAtMostOnce.SecondAckPanics` | pkg/service/service.go:162-164 | uniqueness is needed: wherever two goroutines hold acks for one open channel, three steps lead to a panic |
| `AckAtMostOnce.SecondClosePanics` | pkg/service/service.go:164 | wherever two goroutines are about to close one open channel, two steps lead to a panic |
| `AckPanics.PanicNeedsTwoAcks` | pkg/service/service.go:153-164 | in every run, disciplined or not, a node panics only if it decoded two acks of one uuid |
| `AckPanics.LateWriteFailurePanics` | pkg/network/base_connection.go:102-116 | strict prefixes are needed: for every call there is a run of nodes with no-op handlers in which a write fails after its last byte, the ack is sent again, and the caller's node panics |
| `AckPanics.DoubleAckPanics` | pkg/service/service.go:162-164 | acking once is needed: for every call there is a run in which no write fails, the handler acks twice and the caller's node panics |
| `AckPanics.TimedOutAfterHandling` | pkg/service/service.go:98-107 | for every call there is a run in which the peer handled and acked the message without error and the send timed out |
| `Lifecycle.InvariantAlong` | pkg/network/base_connection.go:56-165 | what the goroutines, close counts and channels of a connection satisfy after every run |
| `Lifecycle.LifecycleSafety` | pkg/network/base_connection.go:56-165 | in every client and server run at most one connection is consumed, each is closed once by its consumer, none is forgotten, the errors channel is closed at most once and not used afterwards, the server's channel after it, and both when all has finished |
| `Lifecycle.GoesOn` | pkg/network/server_connection.go:155-181 | after a connection has ended, or TLS could not be set up, a client or server whose context is open can get and consume any new connection; one whose context is closed can only clean up |
| `Lifecycle.ConsumesAll` | pkg/network/client_connection.go:94-130 | for every kind and every list of different connections there is a run that consumes exactly these, each closed once, and can go on |
| `Lifecycle.ClosedContextStops` | pkg/network/client_connection.go:111-130 | once the context is closed at most one more connection is consumed, and none if none was being dialled or accepted |
| `Lifecycle.ClosesWhenDone` | pkg/network/base_connection.go:69-92 | a connection whose reader left or whose context is closed can be closed at once, and its own context is then done |
| `Lifecycle.ShutsDown` | pkg/network/server_connection.go:145-152 | when the loop ends, the errors channel and then the server's channel are closed |
| `DrivenNodes.StepSimulated` | pkg/network/base_connection.go:93-152 | whatever the goroutines of a client or server do to the loops of their node, the two-node protocol allows it, also when a write failed for good |
| `DrivenNodes.DrivenRunIsRun` | pkg/network/base_connection.go:56-155 | in every run of two nodes driven by clients or servers the nodes go through a run of the two-node protocol, and its loops are always those of the goroutines: never two writers or two readers |
| `DrivenNodes.DrivenReconnects` | pkg/network/client_connection.go:111-130 | for every list of different connections there is a driven run in which the node was on exactly these |
| `DrivenNodes.DrivenConservation` | pkg/network/client_connection.go:94-130 | the write queue of a driven node loses, repeats and reorders nothing over any reconnections |
| `Lifecycle.TryDial` | pkg/network/client_connection.go:56-72 | a connection is returned exactly when an attempt succeeds within the retries before the context is done; otherwise an error, except with no retries at all |
| `AsyncCommands.Int64CommandId` | pkg/message/async_command.go:33-37 | the eight bytes, read with the most significant first, are the id modulo 2^64 |
| `AsyncCommands.Int64CommandIdsMatch` | pkg/message/async_command.go:33-37 | two int64 ids are the same bytes if and only if they are the same integer |
| `AsyncCommands.MarshalBinary` | pkg/message/async_command_result.go:37-50 | filling the buffer in place gives the length of the id, most significant byte first, the id and, for a failure, the length and bytes of the error text, and nothing else |
| `AsyncCommands.ParsedParts` | pkg/message/async_command_result.go:52-68 | for any bytes, exactly when decoding panics, and where in them the id and the error text are found |
| `AsyncCommands.ResultRoundTrip` | pkg/message/async_command_result.go:37-68 | a result survives the wire if and only if its id and error are shorter than 2^32 bytes |
| `NotificationStores.CopyMap` | pkg/reconciler/notification_store.go:155-161 | the copying loop gives an equal map |
| `NotificationStores.PutMerges` | pkg/reconciler/notification_store.go:123-153 | after any history, storing leaves what the merger makes of the old and the new value, or the new value where there was none; nil removes the key; other keys stay; no change is reported exactly when the key held a value and holds it still |
| `NotificationStores.StoresFold` | pkg/reconciler/notification_store.go:123-153 | after a stream of stores on one key the store holds the left fold of the merger over the values and nothing else |
| `NotificationStores.StoreFlat` | pkg/reconciler/notification_store.go:123-153 | storing in the pruned nested map is storing in the flat map, keeps it pruned, and reports no change only when the flat map is unchanged |
| `NotificationStores.CleanPodFlat` | pkg/reconciler/notification_store.go:109-121 | cleaning one pod removes that key of the flat map and keeps the nested map pruned |
| `NotificationStores.NotificationStore.constructor` | pkg/reconciler/notification_store.go:48-54 | a new store is the flat map of the empty history |
| `NotificationStores.NotificationStore.StoreNewValue` | pkg/reconciler/notification_store.go:123-153 | after any history the nested map is the flat map of that history; the key then holds the merger's result on the old value, or the new value if there was none; false is returned exactly when the value that was there is still there |
| `NotificationStores.NotificationStore.CleanPodNotification` | pkg/reconciler/notification_store.go:109-121 | refines the flat map, also when nothing was there |
| `NotificationStores.NotificationStore.CleanPodsNotifications` | pkg/reconciler/notification_store.go:103-107 | refines removing every pod of the resource from the flat map |
| `NotificationStores.NotificationStore.GetPodNotification` | pkg/reconciler/notification_store.go:92-101 | the value at the flat key, or nothing |
| `NotificationStores.NotificationStore.GetPodsNotifications` | pkg/reconciler/notification_store.go:82-90 | all flat values of the resource; not found exactly when there is none |
| `NotificationStores.NotificationStore.HandleMessage` | pkg/reconciler/notification_store.go:56-80 | an unparsable payload is neither stored nor acked; any other is stored and acked, and enqueues the resource exactly when storing changed something |
| `NotificationStores.TriggerCount` | pkg/reconciler/notification_store.go:44-153 | for any stream of non-nil values on one key with PassNewValue, reconciliations triggered equal the maximal runs of equal values |
| `AsyncCommandStores.StoresLatest` | pkg/reconciler/async_command_notification_store.go:55-83 | after any history of notifications and cleanups the store holds the latest notification since the last cleanup, decoded back to what was notified |
| `AsyncCommandStores.AsyncCommandNotificationStore.constructor` | pkg/reconciler/async_command_notification_store.go:44-52 | a new store has no notifications |
| `AsyncCommandStores.AsyncCommandNotificationStore.GetCommandResult` | pkg/reconciler/async_command_notification_store.go:55-68 | a result exactly when that latest notification has the id of the command, and then it is that notification |
| `AsyncCommandStores.AsyncCommandNotificationStore.HandleMessage` | pkg/reconciler/async_command_notification_store.go:81-83 | a payload that does not decode panics and changes nothing; any other is acked and what it decodes to becomes the latest notification |
| `AsyncCommandStores.NotificationArrives` | pkg/service/async_command_handler.go:57-82 | what NotifySuccess and NotifyFailed send decodes to the id and outcome notified, and the store then answers it |
| `AsyncCommandStores.AsyncCommandNotificationStore.CleanPodsNotifications` | pkg/reconciler/async_command_notification_store.go:71-73 | the cleanup enters the history that GetCommandResult answers from |
| `AsyncCommandStores.AsyncCommandNotificationStore.CleanPodNotification` | pkg/reconciler/async_command_notification_store.go:76-78 | the cleanup of one pod enters that history |
| `ConnectionPools.SetDifference` | pkg/reconciler/connection_pool.go:248-261 | the items of the first list not in the second, in order, repeats kept |
| `ConnectionPools.ConnectionPool.constructor` | pkg/reconciler/connection_pool.go:68-83 | a new pool is empty with nothing dialled, cancelled or overwritten |
| `ConnectionPools.ConnectionPool.GetConnectedHosts` | pkg/reconciler/connection_pool.go:85-98 | every host of the key once |
| `ConnectionPools.ConnectionPool.GetServices` | pkg/reconciler/connection_pool.go:100-113 | every host of the key with its service |
| `ConnectionPools.ConnectionPool.ResolveControlInterface` | pkg/reconciler/connection_pool.go:115-125 | found exactly when the host is pooled under the key, with its service |
| `ConnectionPools.ConnectionPool.RemoveConnection` | pkg/reconciler/connection_pool.go:127-143 | cancels and drops exactly that connection, prunes an empty key, keeps every dialled connection accounted for |
| `ConnectionPools.ConnectionPool.RemoveAllConnections` | pkg/reconciler/connection_pool.go:145-156 | cancels and drops exactly the connections of the key |
| `ConnectionPools.ConnectionPool.Close` | pkg/reconciler/connection_pool.go:158-168 | cancels every pooled connection and empties the pool |
| `ConnectionPools.ConnectionPool.DialControlService` | pkg/reconciler/connection_pool.go:206-246 | pools the new service on success only; a service already at that place is overwritten without being cancelled |
| `ConnectionPools.ConnectionPool.DialAll` | pkg/reconciler/connection_pool.go:179-191 | dials in order up to the first failure, calling back after each dial; each host then holds the service of a dial to it; dialling missing hosts overwrites nothing exactly when none is dialled twice |
| `ConnectionPools.ConnectionPool.RemoveOld` | pkg/reconciler/connection_pool.go:193-199 | cancels and drops exactly the given hosts of the key, each after its callback and before the next |
| `ConnectionPools.ConnectionPool.ReconcileConnections` | pkg/reconciler/connection_pool.go:170-204 | fails exactly when a dial fails, having removed nothing; on success cancels exactly the unwanted hosts; other keys untouched; the trace of dials, callbacks and removals is fixed in order, as `IsAttempt` says; leaks nothing exactly when no host was dialled twice |
| `ConnectionPools.CallsOfDials` | pkg/reconciler/connection_pool.go:179-191 | the dialling part of the trace calls newServiceCb once per dialled host, in order, and never oldServiceCb |
| `ConnectionPools.CallsOfTrace` | pkg/reconciler/connection_pool.go:193-199 | the removing part calls oldServiceCb once per removed host, in order, and never newServiceCb |
| `ConnectionPools.DialledTwiceIffWantedTwice` | pkg/reconciler/connection_pool.go:172-191 | a success dials a host twice, and so leaks, exactly when that host is listed twice and was not connected |
| `ConnectionPools.RepeatedHost` | pkg/reconciler/connection_pool.go:248-261 | the concrete case: one new host listed twice is dialled twice |
| `ConnectionPools.SuccessReachesWanted` | pkg/reconciler/connection_pool.go:170-204 | a success leaves exactly the wanted hosts and keeps the services that were there |
| `ConnectionPools.RepeatingChangesNothing` | pkg/reconciler/connection_pool.go:170-204 | repeating a success with the same hosts dials and removes nothing and cannot fail |
| `ConnectionPools.CallsOfAttempt` | pkg/reconciler/connection_pool.go:179-199 | one call of ReconcileConnections calls newServiceCb once for each host it dialled and oldServiceCb once for each host it removed, in order, and for no other |
| `ConnectionPools.ConvergesAfterFailures` | pkg/reconciler/connection_pool.go:171-199 | over any failed attempts and then a success, each missing host is dialled exactly once and in order; over all attempts together newServiceCb is called for exactly these hosts in that order; oldServiceCb for none before the success and then once per unwanted host; no wanted host is removed, no other before the success |
| `ConnectionPools.NoLeakIffNothingOverwritten` | pkg/reconciler/connection_pool.go:127-246 | the dialled and not cancelled connections are exactly those in the pool if and only if no dial took the place of a pooled one |
| `CachingServices.CachingService.constructor` | pkg/service/service_caching_wrapper.go:43-51 | a new wrapper remembers nothing and delivered nothing |
| `CachingServices.CachingService.SendAndWaitForAck` | pkg/service/service_caching_wrapper.go:53-69 | the map always remembers what was last acked; a call fails only if the message had to be sent and that failed; after a success the other end has the payload if and only if no other one was delivered since it was acked |
| `CachingServices.SameLastPayloadIff` | pkg/service/service_caching_wrapper.go:53-69 | whether sends succeed, fail, or fail after they arrived, the last payload delivered per opcode is the one without the cache, unless and only unless the last one to arrive repeats the remembered payload and another was delivered since that was acked |
| `CachingServices.SameLastPayload` | pkg/service/service_caching_wrapper.go:53-69 | when a send that fails has not arrived, the last payload delivered per opcode is always the one without the cache |
| `CachingServices.TimedOutSend` | pkg/service/service_caching_wrapper.go:57-64 | the concrete case: a acked, b arrived but timed out, a again; the last call is skipped with success and the other end stays on b |
| `CachingServices.DeliversDistinct` | pkg/service/service_caching_wrapper.go:53-69 | when all sends succeed, what is delivered per opcode is the uncached sequence without adjacent repeats |
| `Handlers.AckDiscipline` | pkg/service/message_router.go:31-48 | through any nesting of routers every message is acked exactly once, except not at all when a notification store cannot parse it; without error exactly when a handler takes it; error texts are never empty |
| `Handlers.ErrorTexts` | pkg/service/message_router.go:40-42 | through any nesting of routers, the text for an opcode without a route and the text for an async command that cannot be parsed |
| `Handlers.DecimalIsValue` | pkg/service/message_router.go:41 | the opcode in that text is its decimal number |
| `Handlers.TreeRunIsDisciplined` | pkg/service/async_command_handler.go:105-131 | runs of nodes with such handlers are disciplined as soon as their failed writes are |
| `Handlers.SuccessMeansTaken` | pkg/service/service.go:76-192 | between such nodes a send that returns nil reached, at the peer, a handler for its opcode that took its payload |
| `Handlers.NoPanic` | pkg/service/service.go:152-178 | between such nodes no node panics as long as failed writes leave strict prefixes |
| `Certificates.ParseAndValidateSecret` | pkg/certificates/reconciler/certificates.go:148-182 | succeeds exactly when the secret holds certificate, key and CA bytes, outlives the threshold and has the required names as a set |
| `Certificates.Reconciler.CommitUpdatedSecret` | pkg/certificates/reconciler/certificates.go:192-208 | replaces all data by the new pair under both naming schemes, or changes nothing and fails |
| `Certificates.Reconciler.ReconcileKind` | pkg/certificates/reconciler/certificates.go:74-145 | on any copy of a secret, stale or not, store, schedule and error after a pass are those of `Pass`, about which the rows below speak |
| `Certificates.PassRenewsCa` | pkg/certificates/reconciler/certificates.go:93-103 | a pass that finds the CA invalid makes it valid, and writes nothing else |
| `Certificates.PassRenewsSecret` | pkg/certificates/reconciler/certificates.go:122-142 | a pass that finds only the secret invalid, and the CA's pair matching, settles it, signed with the CA's key, for the full interval, and writes nothing else |
| `Certificates.PassCannotSign` | pkg/certificates/reconciler/certificates.go:128-131 | a pass that finds the secret invalid and a CA key that is not its certificate's fails and writes nothing |
| `Certificates.PassKeepsSettled` | pkg/certificates/reconciler/certificates.go:122-145 | a pass over a settled secret writes nothing and schedules the next one |
| `Certificates.Converges` | pkg/certificates/reconciler/certificates.go:74-145 | two passes over any contents succeed and settle CA and secret, with the current CA bytes and exactly the names of the type, if and only if the CA is invalid at first, or its pair matches, or all is settled already; a third pass writes nothing |
| `Certificates.SettledMeans` | pkg/certificates/reconciler/certificates.go:148-182 | settled spelled out, both ways: good certificates and keys for more than 24h under their entry names, the CA's bytes as they are now, and exactly the names of the type |
| `Certificates.SansAreNames` | pkg/certificates/reconciler/certificates.go:105-120 | the names of the four types spelled out, and an error for any other type |
| `Certificates.NamesSeparate` | pkg/certificates/constants.go:41-54 | only control-plane secrets get kn-control; beside the legacy name two secrets share a name only if they are of the same type, users exactly if their namespaces and routers exactly if their ids agree up to ASCII case |
| `Certificates.RenewedSecret` | pkg/certificates/reconciler/certificates.go:122-142 | the six entries of a renewed secret by name: certificate and matching new key twice, CA bytes twice; valid from now for 30 days, with the names of its type |
| `Certificates.RenewedCa` | pkg/certificates/certs.go:100-123 | the four entries of a renewed CA by name: self-signed for a new key, without names, for 3650 days |
| `Certificates.PassDecides` | pkg/certificates/reconciler/certificates.go:74-145 | which secrets a pass is about, exactly when it fails whatever of reading, key generation, signing and writing fails, and that a failure changes nothing |
| `Certificates.MismatchedCaFails` | pkg/certificates/reconciler/certificates.go:122-131 | the concrete failing input: a CA whose private key is not its certificate's and a new secret |
| `Certificates.RotationWindow` | pkg/certificates/reconciler/certificates.go:184-190 | after any passes with a valid CA whose pair matches, the stored certificate fails validation exactly from one second before the re-run is due and is unexpired exactly until 24h minus 1s after |
| `Certificates.RotationNeverLapses` | pkg/certificates/reconciler/certificates.go:122-190 | with such a CA and no pass later than 24h minus 1s after its scheduled time, however many come early, the certificate is unexpired at every moment between passes; a pass replaces it, for the full interval, exactly when it fails validation, and writes nothing otherwise |
| `Certificates.MismatchedCaNeverWrites` | pkg/certificates/reconciler/certificates.go:93-131 | the matching pair is needed: while the CA is valid and its pair does not match, no pass ever writes, and each fails unless the secret still validates |

## Left out

- Streams.Reader.Read: a read that returns bytes together with an error is two reads here.
- MessageQueue.UnboundedMessageQueue.BlockingPoll: does not model which waiter a signal wakes, because the broadcast is made without the lock and a waiter may miss it; only what a poll returns is stated.
- AsyncCommandStores.AsyncCommandNotificationStore.HandleMessage: slices whose capacity exceeds their length are not modelled, so a malformed result panics here wherever a length points past the data.
- ConnectionPools.ConnectionPool.ReconcileConnections: calls on one pool do not overlap, and callbacks do not use the pool.
- CachingServices.CachingService.SendAndWaitForAck: success does not promise that the other end is left with the payload, because a send that timed out may have been delivered since; the exact condition is stated. Calls do not overlap, and a payload is a value, so one changed after it was sent is not modelled.
- NotificationStores.NotificationStore.StoreNewValue: `reflect.DeepEqual` is equality of values, and mergers are pure.
- Certificates.Reconciler.ReconcileKind: the clock does not move during a pass, and an update with a stale copy that the server refuses is one of the writes that fail; lower-casing covers ASCII letters.
- service.go and base_connection.go as objects updated in place: their loops run concurrently, so they are steps over values and aliasing of message pointers is by index.
- Delivery progress and exactly-once delivery: bytes can die with a connection, and a writer that stops does not cancel the connection.
- Replacing the message handler of a service during a run, and the order of the ack and the user's function in an async-command handler.
- The order in which a node handles what it received: each message is accepted by its own goroutine.
- Sockets, TLS, PEM, RSA and X.509 calls: connections are byte streams, certificates are values with names, keys and expiry.
- Kubernetes clients, listers, informers and the generated reconciler plumbing.
- Dial intervals, logging, option functions other than version and flags, TLS dialer factories, pod listing: I/O or easy members.
