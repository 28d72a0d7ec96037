# BlitzBroker: a verified model

BlitzBroker is a broker for a subset of MQTT 3.1.1. This project models it in Dafny, layer by layer, and proves what
each layer promises and what the layers promise together.

| layer | modules | what is modelled |
|---|---|---|
| codec | `RemainingLength`, `Utf8`, `Topics`, `Packets`, `Codec`, `RoundTrip`, `Wire` | the wire format, topic filters, incremental decoding |
| queue | `Queue`, `QueueLocks` | the bounded drop-oldest queue, as a sequential object and as lock and condition-variable steps |
| broker | `Broker`, `Actor`, `Router`, `Retained`, `Membership` | one `run_broker` loop, and how messages are routed to N of them |
| connection | `Session`, `Transcripts` | the reader: bytes to packets to broker messages and answers |
| system | `Network`, `Linearizability`, `Readers`, `Progress`, `Convergence`, `Partition`, `Silence`, `EndToEnd` | readers, shard channels, shard loops, queues and writers interleaved in every possible way |
| tools | `Client`, `Benchmark` | the independent client codec; the credit handshake of the benchmark |

Loops and objects of the program are methods and classes here (`Actor.Shard`, `Router.ShardedBroker`,
`Queue.BoundedQueue`, `Session.Reader`, the decoding and matching loops). Each is proved against a specification
function or relation, and the theorems are about those. Concurrency is a state machine over schedules: `Network.Legal`
says which sequences of steps can happen, `Network.Reached` where they lead, and the results hold for every schedule,
any number of shards, any hash, any queue capacity and any order in which a hash map may be iterated.

How the theorems fit together:

- `Wire` writes the format down once more, in plain bytes and character literals, and pins the codec to it in both
  directions: `Wire.DecodeExactly` for what is accepted, `Wire.IncompleteExactly` and the defect lemmas for what is not,
  the byte lemmas for what is written. `Utf8.ValidExactly`, `Topics.ValidExactly` and `Topics.AgreesIsMatches` do the
  same for strings, filters and matching.
- `Actor.RunBroker` ties the loop to the registry `Broker.After` and to the relation `Broker.Emitted`, which leaves open
  only the order in which maps are iterated; `Broker.EmittedFilters` shows that no client can see that order per topic.
- `Linearizability.PerTopicLinearizable` with `OrderKeepsPrograms` says that N shards behave, topic by topic, like one
  such loop; `RealTimeOrder` adds that the order respects real time. `Convergence` and `Partition` say that the
  registries agree too, once the channels are drained, and `Progress` that such states are reached from everywhere.
- `Session.Reader.ReadLoop` ties the reader to `Session.Whole`, the script that `Readers`, `Silence` and `EndToEnd` use
  for a connection; `Session.ChunkingIndependence` says that the script depends on the bytes only.
- `Queue.TraceLaw` supplies the queue of `Network` and of `Benchmark`; `QueueLocks.LocksRefineQueue` says that the real
  locking implements it.

Strings are their UTF-8 bytes, lengths and packet identifiers have their machine widths, and error texts are names.

## Where code and documentation differ

The model follows the code.

- `close` is documented to wake any blocked consumer (`src/queue.rs:83-84`). It notifies without holding the items lock,
  so the notification can fall between the consumer's look at `closed` and its going to sleep.
  `QueueLocks.CloseCanBeMissed` gives the schedule, `QueueLocks.CloseWakesUnlessMissed` says that this is the only way.
- The comment on `send` (`src/broker.rs:314-326`) lists Subscribe and Unsubscribe as single-shard; wildcard filters are
  broadcast.
- A malformed filter is said to perhaps match nothing (`src/protocol.rs:474-476`). The loop stops at the first `#`
  wherever it stands, and `Topics.Matches` says so; `Topics.ValidFilterMatches` is the statement for legal filters.
- A queue of capacity 0 holds one item and reports a drop for a push that discards nothing: `Queue.TraceLaw` and
  `Queue.ReportIsLoss` cover capacity 0.

## Model

| member | source | states |
|---|---|---|
| RemainingLength.DecodeLoop | src/protocol.rs:232-265 | the decoding loop computes the specified decoder, and its accumulator and multiplier never leave 32 bits |
| RemainingLength.EncodeLoop | src/protocol.rs:268-283 | the encoding loop computes the specified code word |
| RemainingLength.DecodeEncode | src/protocol.rs:232-283 | for every u32, decoding inverts encoding exactly up to 268,435,455 and rejects every larger value, whatever bytes follow |
| RemainingLength.UniqueShortest | src/protocol.rs:232-283 | every accepted field is at least as long as the encoding of its value, and equal length forces equal bytes |
| RemainingLength.Stable | src/protocol.rs:232-265 | a verdict other than Incomplete never changes when bytes are appended |
| RemainingLength.PrefixIncomplete | src/protocol.rs:232-265 | every proper prefix of an accepted field is Incomplete |
| RemainingLength.DecodeExactly | src/protocol.rs:232-265 | a number and a length are decoded exactly when the leading bytes announce that number by the table of the format, continuation bits and weights 1, 128, 16,384 and 2,097,152 in plain figures |
| RemainingLength.EncodeExactly | src/protocol.rs:268-283 | the one to four bytes written for each number up to 268,435,455, in plain figures |
| Utf8.ValidExactly | src/protocol.rs:305-307 | a string is valid exactly when it is the concatenation of the UTF-8 encodings of some code points, surrogates excluded |
| Utf8.StringRoundTrip | src/protocol.rs:289-320 | a string field is its length, high byte first, and its bytes, cut at 65,535; a valid string is read back, whatever follows, exactly when it is not cut |
| Utf8.StringNormalForm | src/protocol.rs:289-320 | an accepted field has the length that its first two bytes say, high byte first, is valid UTF-8, and re-encodes to the very bytes that were read |
| Topics.JoinSplit | src/protocol.rs:442 | joining the levels of a string gives the string back |
| Topics.SplitJoin | src/protocol.rs:442 | splitting joined levels gives the levels back, when no level holds a slash |
| Topics.ValidateTopicFilter | src/protocol.rs:436-463 | the validation loop returns the first defect in the order of the source's checks |
| Topics.ValidateAccepts | src/protocol.rs:436-463 | validation accepts exactly the filters in which wildcards stand alone on their level and '#' on the last one |
| Topics.ValidExactly | src/protocol.rs:436-463 | in characters: the filter is not empty, each '+' stands between slashes or ends, and '#' so at the very end only |
| Topics.ValidateReports | src/protocol.rs:436-463 | a rejection names the defect of the first level that is not legal, or that the filter is empty |
| Topics.TopicMatchesFilter | src/protocol.rs:477-508 | the matching loop decides, for any two strings, both the relation on levels and the relation on characters, in which '#' takes any rest, '+' any text up to the next slash, and anything else itself |
| Topics.AgreesIsMatches | src/protocol.rs:477-508 | the relation on levels and the relation on characters are the same for any two strings |
| Topics.LoneWildcards | src/protocol.rs:486-499 | '#' alone matches every topic, '+' alone exactly the topics without a slash |
| Topics.ValidFilterMatches | src/protocol.rs:477-508 | for a legal filter: equal length and pointwise agreement, or agreement before a final '#' with any, possibly empty, remainder |
| Topics.PlainFilterMatches | src/protocol.rs:477-508 | a filter without wildcards matches exactly the topic that equals it, so the exact lookup and the matcher agree |
| Topics.WildcardExactly | src/broker.rs:57-59 | a wildcard filter is one that holds a '+' or a '#'; a legal filter is one exactly when it matches some topic other than itself |
| Topics.WideningKeepsMatches | src/protocol.rs:477-508 | replacing a level by '+', or a tail by '#', keeps every match |
| Codec.SubscribeLoop | src/protocol.rs:512-547 | the SUBSCRIBE loop is the list decoder that the Wire rows characterise, with the first error in the source's order |
| Codec.UnsubscribeLoop | src/protocol.rs:570-593 | the UNSUBSCRIBE loop is the list decoder that the Wire rows characterise, with the first error in the source's order |
| RoundTrip.PacketRoundTrip | src/protocol.rs:137-227 | a client packet with legal fields is read back from its encoding, whatever follows, exactly when its body is within 268,435,455 bytes |
| RoundTrip.AcceptedWellFormed | src/protocol.rs:137-207 | whatever the decoder accepts is well formed, and its own encoding is no longer than the bytes taken |
| RoundTrip.NormalForm | src/protocol.rs:137-227 | whatever the decoder accepts re-encodes within the bytes taken and reads back as the same packet |
| RoundTrip.Stable | src/protocol.rs:137-207 | acceptance and fatal errors never change when bytes are appended |
| RoundTrip.PrefixIncomplete | src/protocol.rs:137-207 | every proper prefix of an accepted packet is Incomplete |
| RoundTrip.BodyNeverIncomplete | src/protocol.rs:336-707 | no body decoder ever answers Incomplete |
| RoundTrip.StreamRoundTrip | src/protocol.rs:137-332 | repeatedly decoding the concatenated encodings of any list of well-formed client packets gives that list with nothing left over |
| Wire.DecodeExactly | src/protocol.rs:137-207 | a packet is decoded from the front of a buffer exactly when those bytes are that packet by an independent grammar of the format: header byte, length field and body of all seven kinds in plain bytes |
| Wire.IncompleteExactly | src/protocol.rs:140-159 | the decoder waits for more exactly when the length field has not ended within the buffer or the body is shorter than announced |
| Wire.RefusedTypes | src/protocol.rs:199-203 | exactly which complete packets are refused for their type: other direction, unknown types 0, 5, 6, 7 and 15, PUBLISH at QoS 2 and 3 |
| Wire.DupIgnored | src/protocol.rs:612-614 | the DUP bit never changes what is decoded |
| Wire.FieldExactly | src/protocol.rs:289-309 | a string field is read exactly when it is there, complete and text |
| Wire.FieldDefects | src/protocol.rs:289-309 | the three errors of a string field, each with its exact condition |
| Wire.ConnectNameDefects | src/protocol.rs:337-342 | a CONNECT without the right protocol name fails as its field does, or as a wrong name |
| Wire.ConnectDefects | src/protocol.rs:344-389 | every other error of CONNECT with its exact condition, in the order of the checks |
| Wire.ListDefects | src/protocol.rs:512-523 | SUBSCRIBE and UNSUBSCRIBE without identifier, without filters, or failing as their list does |
| Wire.FirstBadSubscription | src/protocol.rs:526-544 | a SUBSCRIBE list fails with the error of its first bad item, behind good ones |
| Wire.SubscriptionDefects | src/protocol.rs:527-542 | the errors of one subscription with their exact conditions |
| Wire.FirstBadFilter | src/protocol.rs:584-590 | an UNSUBSCRIBE list fails with the error of its first bad item, behind good ones |
| Wire.FilterDefects | src/protocol.rs:585-588 | the errors of one filter with their exact conditions |
| Wire.PublishDefects | src/protocol.rs:629-660 | the errors of PUBLISH at QoS 0 and 1 with their exact conditions |
| Wire.FixedDefects | src/protocol.rs:167-193 | the errors of PUBACK, PINGREQ and DISCONNECT with their exact conditions |
| Wire.AnswerBytes | src/protocol.rs:414-419 | CONNACK with its six return codes, PUBACK, UNSUBACK and PINGRESP byte for byte |
| Wire.BareBytes | src/protocol.rs:322-324 | PINGREQ and DISCONNECT byte for byte |
| Wire.SubAckBytes | src/protocol.rs:561-566 | SUBACK byte for byte |
| Wire.PublishBytes | src/protocol.rs:673-690 | PUBLISH byte for byte: QoS and RETAIN in the header, topic, identifier if any, payload |
| Wire.RequestBytes | src/protocol.rs:549-604 | SUBSCRIBE and UNSUBSCRIBE byte for byte, with the flags that the format demands |
| Wire.ConnectBytes | src/protocol.rs:400-412 | CONNECT byte for byte |
| Queue.BoundedQueue.Push | src/queue.rs:54-66 | a push discards the oldest item exactly when the queue is full, appends the new one, and reports it |
| Queue.BoundedQueue.Pop | src/queue.rs:70-81 | one turn of the pop loop takes the front item, or finds the queue closed and empty, or has to wait |
| Queue.BoundedQueue.Close | src/queue.rs:85-88 | closing changes nothing but the flag |
| Queue.TraceLaw | src/queue.rs:54-81 | after any pushes and pops, for any capacity: the buffer is a bounded suffix of everything pushed, the removed prefix splits in order into popped and dropped items, and reports equal drops for capacity at least 1 |
| Queue.Conservation | src/queue.rs:54-81 | every item pushed is popped, lost or still buffered |
| Queue.PoppedInOrder | src/queue.rs:54-81 | the consumer gets a subsequence of what was pushed: nothing twice, nothing reordered |
| Queue.LostExactlyWhenOvertaken | src/queue.rs:54-66 | a removed item was dropped if and only if a push found it in front with capacity items pushed since it |
| Queue.LosslessIffBacklogBounded | src/queue.rs:54-81 | nothing is ever lost if and only if the consumer is never more than capacity items behind |
| Queue.ReportIsLoss | src/queue.rs:54-66 | a push returns true exactly when it discards an item, except on an empty queue of capacity 0 |
| QueueLocks.PushNeverLosesWakeup | src/queue.rs:54-81 | under every schedule with spurious wake-ups: when the consumer sleeps and items is not empty, some producer has pushed and not yet notified |
| QueueLocks.NoCircularWait | src/queue.rs:54-88 | a chain of threads waiting for each other's mutex has at most two links, so no circle of waiting threads is reachable |
| QueueLocks.NoneOnlyWhenClosedAndEmpty | src/queue.rs:70-81 | None is returned only at a moment when the queue is both closed and empty |
| QueueLocks.SomeIsTheFront | src/queue.rs:70-81 | an item is returned only by the holder of the items lock, and it is the front of the buffer |
| QueueLocks.LocksRefineQueue | src/queue.rs:54-81 | under every schedule the shared buffer is that of the sequential queue after the same pushes and pops, and a returned item is the one that queue pops |
| QueueLocks.CloseWakesUnlessMissed | src/queue.rs:70-88 | once every close call has returned, the consumer is asleep or bound to sleep if and only if some notify_all of the schedule found it between reading closed and waiting, and no later step woke it |
| QueueLocks.CloseCanBeMissed | src/queue.rs:76-88 | a schedule after which the queue is closed and empty, every other thread is done, and the consumer sleeps |
| Broker.AfterValid | src/broker.rs:176-291 | after any messages: no subscriber list holds an id twice, and every retained entry is filed under its own topic, with retain set and a payload |
| Broker.NextMember | src/broker.rs:176-291 | how each message changes each membership of a subscriber list, and that nothing else does |
| Membership.RegisteredExactly | src/broker.rs:169-291 | after any messages, a connection is registered exactly when the last of its Register and Disconnect was a Register, under the identifier given there |
| Membership.SubscribedExactly | src/broker.rs:176-291 | after any messages, a connection is on a filter's list exactly when the last that it said about the filter, leaving included, was to subscribe |
| Broker.EmittedFilters | src/broker.rs:155-294 | what one client is told about one topic does not depend on the order of any map iteration |
| Broker.SomeRun | src/broker.rs:155-294 | every history of messages has a run |
| Actor.Shard.ReplayRetained | src/broker.rs:182-215 | scanning the retained map in any order replays every matching retained message exactly once, and no other |
| Actor.Shard.ExactPass | src/broker.rs:246-257 | the first pass pushes once to each registered client on the topic's own list, and remembers exactly those |
| Actor.Shard.WildcardTurn | src/broker.rs:265-284 | one turn of the second pass adds exactly the registered clients of one matching wildcard filter that were not served yet |
| Actor.Shard.FanOut | src/broker.rs:242-285 | both passes, in any map order, push the unmodified packet exactly once to each registered client with a matching filter, and to no other |
| Actor.Shard.OnSubscribe | src/broker.rs:176-216 | Subscribe adds the id to the list once and then replays what is retained, if the client is registered |
| Actor.Shard.OnPublish | src/broker.rs:222-285 | Publish updates the retained map and then fans out |
| Actor.Shard.OnDisconnect | src/broker.rs:286-291 | Disconnect removes the client, and its id from every list |
| Actor.Shard.Handle | src/broker.rs:168-292 | one turn of the loop keeps the registry invariant, gives the specified next registry and makes exactly the specified pushes |
| Actor.RunBroker | src/broker.rs:155-294 | after any messages, registry and pushes are those of a run of the specification |
| Router.ShardedBroker.Send | src/broker.rs:328-411 | every open shard that a message goes to gets it once, at the end of its channel, the others nothing; success exactly when some target was open |
| Router.Destinations | src/broker.rs:334-352 | where a message goes, in plain terms: Register, Disconnect and filters with a '+' or '#' everywhere, all others to the shard of their hash modulo n |
| Retained.RetainedIsLast | src/broker.rs:229-240 | what is retained for a topic is the last retain=true publish on it, and nothing if that one had no payload |
| Retained.GapFreeHandoff | src/broker.rs:176-285 | from Subscribe on, a registered client gets the retained value then in force, if any, and then every later publish on the topic, once each and in order |
| Session.Reader.Dispatch | src/connection.rs:123-240 | what each packet makes the reader send and push, in order, and that only DISCONNECT ends the connection |
| Session.Reader.DrainBuffer | src/connection.rs:95-114 | the inner loop handles exactly the packets at the front of the buffer and keeps the rest |
| Session.Reader.ReadLoop | src/connection.rs:74-119 | for any chunks, the reader does what the drained packets ask for; its last effect is closing its queue, the one before it is Disconnect, and neither occurs earlier |
| Session.BrokerFirst | src/connection.rs:129-222 | the broker hears of CONNECT, SUBSCRIBE and UNSUBSCRIBE before the client is answered, and a PUBLISH is acknowledged before it is passed on |
| Session.DrainFollowsStream | src/connection.rs:95-114 | draining takes the packets of the stream up to and including the first DISCONNECT; without one it waits or fails exactly as decoding does, with the same bytes left |
| Session.StreamEnds | src/connection.rs:95-114 | decoding a stream stops exactly where the next packet is incomplete or malformed, and leaves the rest of the bytes |
| Session.DrainInTwo | src/connection.rs:95-114 | draining, appending bytes and draining again is draining at once, while the connection goes on |
| Session.ReadingDrains | src/connection.rs:83-115 | reading chunk by chunk gives the packets and the end of the whole stream, and loses no byte |
| Session.ChunkingIndependence | src/connection.rs:83-115 | two ways of cutting one stream give the same packets, the same end and the same bytes left over |
| Transcripts.OneAnswerPerRequest | src/connection.rs:123-240 | for any bytes received, the reader's own pushes are exactly one matching answer per CONNECT, SUBSCRIBE, UNSUBSCRIBE, QoS 1 PUBLISH and PINGREQ, in their order |
| Transcripts.TranscriptRequests | src/connection.rs:123-240 | the reader's broker messages are the in-order expansion of its packets, one per filter |
| Transcripts.EncodedSessionDrains | src/connection.rs:83-115 | packets encoded by a client are drained as exactly those packets, with nothing left over |
| Network.ReachedBookkeeping | src/broker.rs:328-411 | in every reachable state: each shard has handled and holds exactly what was enqueued there, in order, each message only where it goes, and each connection has enqueued what its program did so far |
| Linearizability.OrderTracksProgress | src/broker.rs:328-357 | in every reachable state the per-topic order holds every send of a connection that is completed, and none that has not begun |
| Linearizability.OrderKeepsPrograms | src/broker.rs:328-357 | the per-topic order of sends extends every connection's program order, and in the end holds every send once |
| Linearizability.RealTimeOrder | src/broker.rs:328-357 | cut any run at any moment: some position of the final per-topic order has every send that had ended in front of it, and every send that had not begun behind it |
| Linearizability.Simulates | src/broker.rs:79-89 | the topic's shard, fed its own copies, tells every client about the topic what one broker fed all sends would |
| Linearizability.ReachedRelayed | src/broker.rs:155-294 | what is delivered and pending about a topic is what the topic's shard owes for the messages it has handled |
| Linearizability.PerTopicLinearizable | src/broker.rs:328-411 | in every reachable state, for every topic and client, the events about the topic are those that any single run_broker makes for a prefix of one order of all sends, and for all of it once the channel is drained |
| Readers.ReceivedFromSender | src/connection.rs:123-240 | whatever a shard has received was enqueued there by the connection that it names |
| Readers.ReceivedTracksProgress | src/broker.rs:328-411 | of a connection's messages of a class that all go to one shard, the shard has received every completed send, in program order, and none that has not begun |
| Readers.ReceivedInProgramOrder | src/broker.rs:328-411 | so it is a prefix of the program, and the whole of it once the connection is done |
| Readers.StandingIsLocal | src/broker.rs:176-291 | whether a client is registered, and on which lists, depends on its own messages only |
| Progress.DrainedReached | src/broker.rs:155-294 | from every reachable state the broker can catch up to a state with all channels drained and all pushes made, while the connections stay where they are |
| Progress.QuietReached | src/connection.rs:74-119 | every run can be carried on to a state in which all readers are done and all channels drained |
| Progress.StandsReached | src/connection.rs:74-119 | for every choice of a point in each connection's program there is a run to a drained state in which the connections stand exactly there |
| Convergence.StandingConverges | src/broker.rs:328-411 | with channels drained and every connection, still connected or gone, at the end of a send: a client's registration and memberships at a shard are those at one broker that handled the sends so far, in any interleaving that respects the programs |
| Convergence.ShardsConverge | src/broker.rs:79-89 | in such a state every shard has the client map of the one broker and the same subscribers of every filter kept there; exact filters and retained messages live only at the shard of their hash |
| Convergence.ConnectedAtRest | src/connection.rs:130-167 | for any number of shards, hash and filter there is a run of readers to such a state in which a client is registered at every shard and listed at every shard that keeps its filter |
| Convergence.RetainedConverges | src/broker.rs:229-240 | with the channels drained, the retained message of a topic is that of one broker that handled the sends in the topic's order |
| Convergence.AtomicSendsRefineOneBroker | src/broker.rs:328-411 | with each send made in one go, whenever the channels are drained every client has been told the same multiset of events as by one broker |
| Partition.ShardsAreParts | src/broker.rs:79-89 | with each send made in one go, whenever the channels are drained each shard's registry is exactly its part of one broker's, and the parts make up that registry: clients and wildcard filters everywhere, each exact filter and each retained message in exactly one part, nothing missing, nothing different |
| Silence.SilenceAfterDisconnect | src/broker.rs:286-291 | once a shard has handled Disconnect(id), and ever after, id is not a client, is on no list, and nothing is left to push to it |
| Silence.BrokerForgets | src/broker.rs:375-381 | once every shard has handled Disconnect(id), the broker never pushes to id again, whatever happens next |
| Silence.ConnAckFirst | src/connection.rs:130-145 | on the queue of a client that begins with CONNECT, CONNACK comes before anything from the broker, under every interleaving |
| EndToEnd.FeedInOrder | src/broker.rs:246-284 | a publish makes at most one live delivery to a client, in the order handled |
| EndToEnd.HandledFromSent | src/broker.rs:328-357 | of a publisher's publishes on a topic, the topic's shard has handled a prefix of what was sent |
| EndToEnd.OrderKeptEndToEnd | src/connection.rs:95-253 | the live publishes of one publisher on one topic that a subscriber's writer emits are a subsequence of what the publisher sent: none twice, none out of order |
| Client.EncodeLength | src/bin/blitzclient.rs:34-48 | the client's length encoder writes the same bytes as the broker's |
| Client.BrokerReadsConnect | src/bin/blitzclient.rs:129-137 | the broker reads the client's CONNECT as the intended one, whatever follows, exactly when the identifier fits a string field |
| Client.BrokerReadsSubscribe | src/bin/blitzclient.rs:148-154 | the broker reads the client's SUBSCRIBE as the intended one exactly when the filter is legal and the QoS bits are not 3 |
| Client.BrokerReadsPublish | src/bin/blitzclient.rs:160-172 | the broker reads the client's PUBLISH as the intended one exactly when the topic is non-empty text without '+' and '#', the QoS is 0 or 1, and no identifier 0 is given at QoS 1; the identifier is dropped at QoS 0 and defaults to 1 |
| Client.BrokerReadsDisconnect | src/bin/blitzclient.rs:175-177 | the broker reads the client's DISCONNECT |
| Client.DecodeLength | src/bin/blitzclient.rs:53-76 | the client's length decoder gives the broker's verdict on every buffer, under its own names |
| Client.ReadPacket | src/bin/blitzclient.rs:185-222 | the client's byte-by-byte framing agrees with the broker's framing on every stream |
| Client.ClientFrames | src/bin/blitzclient.rs:185-222 | the client's framing takes exactly the bytes of one packet of the broker off a longer stream: type and flags are the halves of its first byte, the body its last bytes |
| Client.ClientFramesUnsubAck | src/bin/blitzclient.rs:185-222 | UNSUBACK arrives as type 11 with the identifier, high byte first |
| Client.FramingFails | src/bin/blitzclient.rs:185-222 | the client gives up exactly on a length field longer than four bytes, and runs out of stream exactly where the broker would wait |
| Client.ClientReadsBody | src/bin/blitzclient.rs:226-306 | the client's decoders recover the fields of the broker's CONNACK, PUBACK and PUBLISH, and of its SUBACK exactly when it has a return code |
| Client.AnswersExactly | src/bin/blitzclient.rs:226-306 | what the client's CONNACK, SUBACK and PUBACK decoders make of every body |
| Client.PublishExactly | src/bin/blitzclient.rs:267-295 | a PUBLISH body is decoded exactly when it is a text field, an identifier that is not zero if the QoS is not, and the payload |
| Benchmark.CreditBoundsBacklog | src/bin/shard_benchmark.rs:252-311 | in every reachable state, for any batch size and capacity, at most one batch is under way, and what has arrived is a subsequence of what was sent, a prefix while nothing is lost |
| Benchmark.NeverDropsIffBatchFits | src/bin/shard_benchmark.rs:252-311 | the queue never discards a message in any run if and only if a batch, or all messages, fit into it |
| Benchmark.SomeStepEnabled | src/bin/shard_benchmark.rs:252-311 | while nothing has been lost, the handshake never deadlocks |
| Benchmark.BothLoopsFinish | src/bin/shard_benchmark.rs:252-311 | every run has at most 10 steps per message and 2 more; every run that cannot go on has delivered every message once and in order if and only if a batch, or all messages, fit into the queue |

## Left out

- Sockets, thread spawning, the accept loop, logging, command lines, timing: reads are arbitrary chunks, threads are steps.
- A connection whose reader or writer meets an I/O error: a read error ends the chunks like the end of the stream; a writer that stops is one that takes no further step.
- `DefaultHasher` is any function of the topic; `HashMap` order is arbitrary; `mpsc` channels are FIFO sequences; `Mutex` and `Condvar` have their usual meaning, with spurious wake-ups.
- `str::from_utf8` is the predicate `Utf8.Valid`, written from the definition of UTF-8; bit operations on bytes are division and remainder.
- Router.ShardedBroker.Send: the channels are sequences owned by one object; concurrent senders are modelled in Network, where a broadcast is one enqueue at a time and no shard ever stops.
- Actor.Shard.Handle: pushes go to an outbox that names the receiving connection instead of to queue objects held by the client map; Network carries them to the queues one at a time. Register therefore does not carry a queue handle, which fits a program where each connection registers its own queue only.
- Broker: each push is labelled as live or replayed, with its publisher; the label is not on the wire and serves the statements only.
- `next_connection_id` (src/broker.rs:105-107): connection ids are distinct by being the keys of a run's scripts; wrap-around of the 64-bit counter is not modelled.
- Queue.BoundedQueue.Pop: does not wait; waiting is modelled in QueueLocks.
- Network: closing a queue is no step, since a writer may stop taking events at any time.
- Utf8.StringRoundTrip: strings over 65,535 bytes are cut by the encoder, and the statement says that exactly those are not read back; what is read instead is not stated.
- RoundTrip.PacketRoundTrip: bodies of 4 GiB and more, whose length is cut to 32 bits, are excluded.
- Retained.GapFreeHandoff: is about a client that does not subscribe again meanwhile with a filter that matches the topic, be it the same one, since every Subscribe replays; the live part of that case is in Actor.Shard.FanOut.
- EndToEnd.OrderKeptEndToEnd: nothing says that a publish arrives at all, since the drop-oldest queue may discard it; Queue.LostExactlyWhenOvertaken says when.
- Benchmark: that both loops run forever with a batch size of 0, packets other than PUBLISH on the subscriber's socket, and the order of disconnects.
- Client.BrokerReadsPublish: bodies near or over the length limit; `RoundTrip.PacketRoundTrip` covers the limit itself.
- Sizes of the machine word: `usize` has 64 bits, so that the `checked_add` guards of the decoders never fail.
- `$`-topics, QoS 1 redelivery, sessions, wills, keep-alive and authentication are not in the program.
