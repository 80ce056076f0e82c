# KafkaJS core, modelled and proved in Dafny

KafkaJS is a Kafka client written in JavaScript. This project models the parts of it whose
correctness is hard to see from the code, and proves what they are for. Check it with
`dafny verify dfyconfig.toml`.

How the model is built:

- Code that computes values is a function. Code that updates fields, arrays or maps step by step
  is a class or a method with loops, whose contract ties the new state to a function of the old
  one; what the source promises is then proved about that function.
- Asynchronous code is cut at its awaits. Each piece between two awaits is one atomic step of a
  state machine; answers of brokers, timeouts, clock readings and handler outcomes are events.
  Main results hold for every run, that is for every list of events.
- "Keeps these elements, in order" is said once, by positions (`Selections`), and the filters and
  groupings are proved against it.
- Numbers are unbounded integers. JavaScript's 32-bit operators, `BigInt`, the 32-bit arithmetic
  of the Java reference and the 8-bit groups of the wire format are written out (`Bits`, `Wire`).

## What is proved, and what turned out to be false

**Byte streams and requests** (`Connection`, `RequestQueue`, `RequestQueueCode`, `Settlements`).
Reassembling responses from arbitrary chunks equals parsing the whole stream at once. Every request
is in exactly one of pending, in flight and settled, settles at most once, and the state guard never
throws. `SettledForAReason` says which requests are completed and which are rejected in every run.
The queue is first in, first out. Send order equals push order in runs without throttling; with
throttling it does not, because once the throttle has expired a new push is sent ahead of requests
that are still pending. `PushOrders` says exactly when a push keeps the order.

**Producer** (`Lock`, `Eos`, `EosCode`, `ProducerRuns`, `SequenceRuns`, `TransactionRuns`,
`TransactionHistory`, `Grouping`, `SendRuns`). One send at a time holds a broker's lock, and acknowledged batches use
each sequence number exactly once. Rolling sequence numbers back restores them exactly when no
counter rotated to 0. A transaction's history is legal in every run whose commits and aborts do
not overlap a registration, and only then: `EndIsSafe` is an equivalence. A commit asks the brokers
to commit and an abort to abort, in every run (`EndCarriesFlag`). A commit or abort that
fails leaves the manager in COMMITTING or ABORTING for good, unless an initProducerId call was
already under way. A send that resolves has delivered every
message whose partition has a leader, whatever failed and was retried before, with one exception
that the code does not exclude: a request of an earlier attempt that fails while the next attempt
is looking up its brokers removes its broker from the response map after that map was consulted,
and the send then resolves without that broker's messages. `LateFailureLoses` is such a run and
`LateFailureExact` says exactly which late failures are harmless.

**Consumer** (`FilterAborted`, `Batch`, `Offsets`, `ConsumerRuns`, `SessionOrder`, `Scheduler`,
`Places`). Committed offsets never pass a record that was not handled: `Delivery` holds for every
interleaving of fetches of several nodes, late answers, hand-overs, handler calls, commits in
flight, re-joins and restarts. It needs fetches that cover the fetch offset: a batch that holds
only records below it resolves the fetch offset itself, and `UncoveredFetch` says exactly when that
skips a record. Handled offsets do not always increase within a session: when a partition moves to
another node while its batch is in hand, an answer asked for earlier is claimed as soon as the
first fetcher releases the partition, and messages are handled twice (`StaleAnswerRepeats`). A
hand-over keeps the order exactly when the batch goes on after what the session has handled
(`HandOverExact`), which holds whenever the answer that is claimed was asked for above it
(`ClaimsGiveOrder`), and so in every run of a partition that stays with one fetcher
(`OneFetcherKeepsOrder`). The one-pass filter of aborted messages is right for all contents exactly
when at most one aborted transaction starts in each gap between messages; a handler then gets exactly
the messages of its window that are neither control records nor aborted. A partition is in one
place at a time in the fetch scheduler, no fetched batch is lost or handled twice, and the consumer
runs move a partition exactly as the scheduler's claim map does (`Places.PlaceMoves`,
`ConsumerRuns.HandMoves`).

**Wire formats** (`Wire`, `Varint`, `Encoder`, `Decoder`, `Records`, `RecordReading`,
`RecordBatches`, `BatchCode`). Variable-length integers, records and record batches (sections 5.3.1
and 5.3.2 of the Apache Kafka documentation) are read back as they were written, pre-computed
record sizes equal the bytes written, and the fetch loop returns exactly the records of the
complete batches, each with the offset and timestamp it was written with. A stored sample record
and the positions of a batch's fields pin the layout itself. Three exceptions are made precise: a header whose key is a name that every
JavaScript object inherits is read back wrongly; a header value of null makes the size computation
throw; a fetch response with no complete batch and 1 to 16 bytes of a next one throws.

**Arithmetic and assignment** (`Murmur2`, `Crc32C`, `AssignerProtocol`, `RoundRobin`). The
unbounded-integer murmur2 equals the 32-bit Java reference, the table-driven checksum equals
bit-at-a-time division by the Castagnoli polynomial (section 12.1 of RFC 3720), both with a known
answer, round robin gives
every partition to exactly one member with balanced loads, and each member decodes exactly its
share, unless a topic is named `__proto__`: that topic is lost by the decoder, and only that one.

## Model

| member | source | states |
|---|---|---|
| `Murmur2.Hash` | src/producer/partitioners/default/murmur2.js:14-53 | the BigInt loop, fall-through tail and mixing return the value of the wrap-around Java reference, for every byte array a Java array can hold |
| `Murmur2.BlocksRep` | src/producer/partitioners/default/Test.java:44-56 | after any number of 4-byte blocks the unbounded accumulator and the 32-bit one agree modulo 2^32 |
| `Murmur2.TailRep` | src/producer/partitioners/default/Test.java:58-67 | the last 0 to 3 bytes keep the two accumulators congruent |
| `Murmur2.MixRep` | src/producer/partitioners/default/Test.java:69-73 | the final mixing of congruent accumulators gives equal signed 32-bit results |
| `Murmur2.WordIsLittleEndian` | src/producer/partitioners/default/murmur2.js:24-28 | a block is the signed 32-bit number of its four bytes, least significant first |
| `Murmur2.HashOfKey` | src/producer/partitioners/default/murmur2.spec.js:30-30 | the reference hashes the key 4782969 to -1182699775 |
| `Crc32C.Compute` | src/protocol/recordBatch/crc32C/crc32C.js:8-16 | the table-driven loop computes the bit-serial checksum of every buffer |
| `Crc32C.TableIsRemainders` | src/protocol/recordBatch/crc32C/crc32C.js:20-85 | each of the 256 table entries is eight division steps of its index |
| `Crc32C.TableStep` | src/protocol/recordBatch/crc32C/crc32C.js:10-12 | one table look-up equals shifting in the eight bits of the byte one at a time |
| `Crc32C.ChecksumOfZeroes` | src/protocol/recordBatch/crc32C/crc32C.js:8-16 | the checksum of 32 zero bytes is the one of appendix B.4 of RFC 3720 |
| `Varint.VarIntRoundTrip` | src/protocol/decoder.js:236-248 | reading a written varint gives the number back and stops right after it, for every int32 anywhere in a buffer |
| `Varint.UVarIntRoundTrip` | src/protocol/decoder.js:252-265 | the same for unsigned varints of every uint32 |
| `Varint.VarLongRoundTrip` | src/protocol/decoder.js:300-315 | the same for varlongs of every int64 |
| `Varint.Int64RoundTrip` | src/protocol/decoder.js:61-78 | reading the eight bytes of an int64 with a shifted signed top byte gives the number back |
| `Varint.Halves` | src/utils/long.js:306-316 | the signed high and low 32-bit halves that writeInt64 writes are the number's eight bytes |
| `Varint.VarintSizes` | src/protocol/encoder.js:362-395 | varints take at most 5 bytes, unsigned varints 5, varlongs 10 |
| `Varint.UVarIntGroups` | src/protocol/encoder.js:366-375 | byte i holds bits 7i to 7i + 6 and marks whether more follow, and no byte more than needed is written |
| `Wire.ZigZagValue` | src/protocol/encoder.js:15-17 | shift-and-xor on 32 bits is the arithmetic zigzag map |
| `Wire.ZigZag64Value` | src/protocol/encoder.js:19-22 | shift-and-xor on unbounded integers is the zigzag map for every int64 |
| `Wire.UnZigZag` | src/protocol/decoder.js:18-20 | the decoder undoes zigzag for every int32, from any number congruent modulo 2^32 |
| `Wire.UnZigZag64` | src/protocol/decoder.js:22-24 | the 64-bit decoder undoes zigzag for every int64 |
| `Encoding.UVarIntByteArray` | src/protocol/encoder.js:366-375 | the 32-bit masking loop emits the seven-bit groups of the value modulo 2^32 |
| `Encoding.VarLongByteArray` | src/protocol/encoder.js:377-395 | the BigInt masking loop emits the seven-bit groups of the zigzagged value |
| `Encoding.SizeOfVarInt` | src/protocol/encoder.js:24-34 | the size loop counts exactly the bytes that writeVarInt writes |
| `Encoding.SizeOfVarLong` | src/protocol/encoder.js:36-46 | the size loop counts exactly the bytes that writeVarLong writes |
| `Encoding.SizeOfVarIntBytes` | src/protocol/encoder.js:48-56 | the size equals the bytes written for a null or present byte string |
| `Encoding.NextPowerOfTwoExact` | src/protocol/encoder.js:58-60 | the shift gives a larger power of two exactly below 2^30, and fails for every larger 32-bit value |
| `Encoding.GrowthIsAmortized` | src/protocol/encoder.js:82-89 | over any sequence of writes below 2^30 bytes the capacity stays a power of two and all bytes copied by growth are fewer than the final capacity |
| `Encoding.GrowKeepsAmortized` | src/protocol/encoder.js:82-89 | one growth keeps that bound and at least doubles the capacity |
| `Encoding.Encoder.constructor` | src/protocol/encoder.js:67-70 | a new encoder is empty with the next power of two as capacity |
| `Encoding.Encoder.EnsureAvailable` | src/protocol/encoder.js:82-89 | growing never changes the bytes written so far and makes room |
| `Encoding.Encoder.WriteBuffer` | src/protocol/encoder.js:75-80 | writing appends exactly the data to the contents and grows as one write, so doubling and the copy bound hold after every write |
| `Encoding.Encoder.WriteInt64` | src/protocol/encoder.js:123-130 | appends the eight bytes of the number, growing as one write of eight bytes |
| `Encoding.Encoder.WriteVarInt` | src/protocol/encoder.js:362-364 | appends the varint bytes of the number, growing as one write |
| `Encoding.Encoder.WriteVarLong` | src/protocol/encoder.js:377-395 | appends the varlong bytes of the number, growing as one write |
| `Encoding.Encoder.WriteVarIntBytes` | src/protocol/encoder.js:209-229 | appends length and bytes, -1 for null, growing as those two writes |
| `Encoding.Encoder.WriteEncoderArray` | src/protocol/encoder.js:262-271 | appends the parts one after the other, growing as one write per part |
| `Encoding.Encoder.WriteBytes` | src/protocol/encoder.js:186-207 | appends a 32-bit length and the bytes, -1 for null, growing once for both |
| `Decoding.Decoder.ReadVarInt` | src/protocol/decoder.js:236-248 | the loop reads what the recursive reader says and leaves the cursor after it |
| `Decoding.Decoder.ReadUVarInt` | src/protocol/decoder.js:252-265 | the same, with the error on a sixth group |
| `Decoding.Decoder.ReadVarLong` | src/protocol/decoder.js:300-315 | the same, with the error past bit 63 |
| `Records.EncodeRecord` | src/protocol/recordBatch/record/v0/index.js:25-48 | the record's pre-computed size equals the bytes written after it; it throws exactly when some header value is null |
| `Records.SizeOfHeaders` | src/protocol/recordBatch/record/v0/index.js:50-67 | the size loop equals the bytes of the written header array, or throws on a null value |
| `RecordReading.RecordRoundTrip` | src/protocol/recordBatch/v0/decoder.js:115-118 | a record written anywhere in a buffer is read back with its key, value and regrouped headers, its offset and timestamp the sums of the batch's first ones and the record's deltas, or the batch's maximum timestamp in a log-append batch |
| `RecordReading.BodyRoundTrip` | src/protocol/recordBatch/record/v0/decoder.js:19-69 | decoding a written record body gives that message and uses up the body |
| `RecordReading.LogAppendTimestamp` | src/protocol/recordBatch/record/v0/decoder.js:31-36 | whatever a record of a log-append batch says, its timestamp is the batch's maximum |
| `RecordReading.SampleOnTheWire` | src/protocol/recordBatch/record/v0/decoder.spec.js:5-32 | the written form of the stored sample record, byte by byte |
| `RecordReading.HeadersRoundTrip` | src/protocol/recordBatch/record/v0/decoder.js:45-56 | regrouping gives the written headers back, up to one-element and empty arrays, exactly when no key with a value is a name that every object inherits |
| `RecordReading.InheritedHeader` | src/protocol/recordBatch/record/v0/decoder.js:45-56 | a header named toString comes back as an array of the inherited function and the value |
| `RecordBatches.BatchRoundTrip` | src/protocol/recordBatch/v0/decoder.js:29-118 | a written uncompressed batch is read back with its header fields, flags and records, and the reader stops right after it |
| `RecordBatches.BatchReadsBack` | src/protocol/recordBatch/v0/decoder.js:50-118 | field by field and record by record what a written batch reads back as: record i has the batch's first offset and timestamp plus its own deltas, its key, value and headers |
| `RecordBatches.FlagBits` | src/protocol/recordBatch/v0/decoder.js:61-66 | for every int16, bits 4, 5 and 3 of the attributes decide the transactional, control and log-append flags, and the low three bits whether a codec is used |
| `RecordBatches.ChecksumCoversTheRest` | src/protocol/recordBatch/v0/index.js:72-78 | bytes 17 to 20 of every written batch are the checksum of all bytes after them |
| `RecordBatches.FetchReadsCompleteBatches` | src/protocol/requests/fetch/v12/decodeMessages.js:11-45 | for complete batches followed by any strict prefix of another, exactly the complete batches' records are returned, or the read throws if there is no complete batch and 1 to 16 bytes of the next |
| `RecordBatches.FetchLoopReads` | src/protocol/requests/fetch/v12/decodeMessages.js:26-41 | the loop returns the concatenated records of the complete batches and stops at the tail |
| `RecordBatches.FetchedRecord` | src/protocol/requests/fetch/v12/decodeMessages.js:26-41 | where each record of each complete batch is in the result, with its offset, timestamp, key and value |
| `RecordBatches.FetchLoopThrows` | src/protocol/requests/fetch/v12/decodeMessages.js:26-41 | a batch that fails for another reason than being cut off makes the loop throw, also after complete batches |
| `RecordBatches.TailStops` | src/protocol/recordBatch/v0/decoder.js:35-41 | a strict prefix of a batch adds no record and no error |
| `BatchCode.EncodeBatch` | src/protocol/recordBatch/v0/index.js:32-79 | the step-by-step writer produces the batch layout with length and checksum envelope |
| `BatchCode.EncodeBody` | src/protocol/recordBatch/v0/index.js:49-63 | the body writer produces the fixed fields and the record array |
| `BatchCode.ReadRecords` | src/protocol/recordBatch/v0/decoder.js:92-95 | the array loop reads as many records as announced or fails on the first that fails |
| `BatchCode.FetchRecords` | src/protocol/requests/fetch/v12/decodeMessages.js:24-42 | the moving-cursor loop computes the recursive fetch loop |
| `Connections.Receive` | src/network/connection.js:488-535 | for every stream and every split of it into chunks, the responses delivered and the bytes still buffered equal those of parsing the whole stream at once |
| `Connections.ReceiveFrames` | src/network/connection.js:488-535 | any chunking of well-formed frames delivers exactly their correlation ids, payloads and sizes |
| `Connections.ParseInvertsFraming` | src/network/connection.js:499-534 | parsing the concatenation of frames gives the frames back with nothing left over |
| `Connections.ParseAppend` | src/network/connection.js:499-518 | parsing can be interrupted anywhere and resumed from the unparsed tail |
| `Connections.Connection.ProcessData` | src/network/connection.js:488-535 | one chunk delivers what parsing tail plus chunk delivers and buffers exactly the new tail |
| `Connections.Connection.NextCorrelationId` | src/network/connection.js:477-483 | hands out the counter and wraps before 2^31 - 1 |
| `Connections.IdsDistinct` | src/network/connection.js:477-483 | two ids of one connection are equal exactly when their numbers differ by a multiple of 2^31 - 1 |
| `RequestQueues.StepKeeps` | src/network/requestQueue/index.js:113-236 | every push, response, timeout, check and rejectAll keeps each request in exactly one place in agreement with its state, in flight within the limit, and the guard silent |
| `RequestQueues.QueueRuns` | src/network/requestQueue/index.js:113-298 | over every run of an empty queue: each request is in exactly one place in agreement with its state and settles at most once, the guards never throw, the in-flight limit holds, requests that waited are sent in the order they were enqueued, and without throttling all are sent in the order they were pushed and none waits unless the in-flight map is full |
| `RequestQueues.RunKeeps` | src/network/requestQueue/index.js:113-236 | every run from a sound state keeps it sound, and no request settles twice |
| `RequestQueues.QueueIsFifo` | src/network/requestQueue/index.js:281-298 | queued requests leave the queue in the order they were enqueued, over every run |
| `RequestQueues.UnthrottledSendsInPushOrder` | src/network/requestQueue/index.js:157-176 | in every run that is never throttled the send order is the push order |
| `RequestQueues.PushOrders` | src/network/requestQueue/index.js:157-176 | a push keeps the order exactly when the queue is empty or the request cannot be sent at once |
| `RequestQueues.ThrottledOvertakes` | src/network/requestQueue/index.js:267-273 | a run in which a push after the throttle expired is sent before a pending request |
| `RequestQueues.ThrottleHolds` | src/network/requestQueue/index.js:267-273 | while the throttle lasts no event sends anything, and the throttle never moves back |
| `Settlements.SettledForAReason` | src/network/requestQueue/index.js:203-236 | over every run of an empty queue: a request is completed exactly when its response arrived while it was in flight, or it was sent and expects none; rejected exactly when it timed out in flight, or was waiting or in flight at a rejectAll |
| `Settlements.StepExplained` | src/network/requestQueue/index.js:181-236 | in one step a request's state changes only for such a reason, and always for it |
| `RequestQueueCode.RequestQueue.PushRequest` | src/network/requestQueue/index.js:157-176 | the method performs the push step of the state machine |
| `RequestQueueCode.RequestQueue.SendSocketRequest` | src/network/requestQueue/index.js:181-194 | sends, and settles at once a request that expects no response |
| `RequestQueueCode.RequestQueue.CheckPendingRequests` | src/network/requestQueue/index.js:281-298 | the loop sends from the front while limit and throttle allow |
| `RequestQueueCode.RequestQueue.FulfillRequest` | src/network/requestQueue/index.js:203-219 | removes the request, refills from the queue, then completes it; nothing if no request has the id |
| `RequestQueueCode.RequestQueue.TimeoutRequest` | src/network/requestQueue/socketRequest.js:94-114 | removes the request, refills from the queue, then rejects it |
| `RequestQueueCode.RequestQueue.RejectAllRequests` | src/network/requestQueue/index.js:225-236 | rejects everything in flight and pending and empties both |
| `RequestQueueCode.RequestQueue.MaybeThrottle` | src/network/requestQueue/index.js:105-111 | moves the throttle forward only |
| `Locks.GrantsInOrder` | src/utils/lock.js:28-62 | over every run of acquire, release and timeout, the lock is taken exactly when one caller is inside, a free lock has no waiters, and calls that did not give up are granted in order |
| `Locks.Lock.Acquire` | src/utils/lock.js:28-53 | takes a free lock or joins the waiters |
| `Locks.Lock.Release` | src/utils/lock.js:55-62 | hands the lock to the first waiter or frees it |
| `Locks.Lock.TimeOut` | src/utils/lock.js:46-51 | the waiter leaves and nothing else changes |
| `Eos.RollbackRestores` | src/producer/eosManager/index.js:214-232 | giving sequence numbers back restores all counters exactly when none reached 2^31 - 1 while it was advanced |
| `Eos.AssignedAdds` | src/producer/sendMessages.js:85-90 | without rotation, assigning adds each partition's message count to its counter and changes nothing else |
| `Eos.FirstsAre` | src/producer/sendMessages.js:85-90 | a batch's first sequence number is the counter plus what earlier entries of the request took |
| `Eos.RolledBackSubtracts` | src/producer/sendMessages.js:105-112 | the failure path subtracts each partition's message count |
| `Eos.UnregisteredAre` | src/producer/eosManager/index.js:257-266 | exactly the request's partitions that are not registered are asked for |
| `Eos.MarkedAdds` | src/producer/eosManager/index.js:278-282 | marking registers exactly the acknowledged partitions |
| `EosCode.EosManager.TransitionTo` | src/producer/eosManager/transactionStateMachine.js:60-71 | transitions in the table happen, entering READY clears the registrations, others change nothing |
| `EosCode.EosManager.Initialize` | src/producer/eosManager/index.js:156-165 | a producer id resets sequences, locks and registrations |
| `EosCode.EosManager.GetSequence` | src/producer/eosManager/index.js:195-204 | reads the counter, 0 if unset, and fills it in |
| `EosCode.EosManager.UpdateSequence` | src/producer/eosManager/index.js:214-232 | advances one counter with rotation, nothing before initialisation |
| `EosCode.EosManager.AssignSequences` | src/producer/sendMessages.js:85-90 | the loop takes first sequence numbers and advances the counters entry by entry |
| `EosCode.EosManager.RollBack` | src/producer/sendMessages.js:106-110 | the loop gives the numbers back entry by entry |
| `EosCode.EosManager.BeginTransaction` | src/producer/eosManager/index.js:237-240 | guarded transition from READY to TRANSACTING |
| `EosCode.EosManager.EndTransaction` | src/producer/eosManager/index.js:288-333 | guarded commit or abort, straight to READY when nothing is registered, an EndTxn request due otherwise |
| `EosCode.EosManager.StartAddPartitions` | src/producer/eosManager/index.js:253-271 | the guard, and the partitions still to register |
| `EosCode.EosManager.PartitionsAdded` | src/producer/eosManager/index.js:278-282 | marks acknowledged partitions in the order in which the request object's keys come, whichever that is, with the TypeError when a topic's entry is gone |
| `EosCode.EosManager.OffsetsAcknowledged` | src/producer/eosManager/index.js:385-392 | an acknowledged addOffsetsToTxn makes the transaction ongoing |
| `EosCode.EosManager.AcquireBrokerLock` | src/producer/eosManager/index.js:350-356 | acquires the broker's own lock, created on first use, other locks untouched |
| `EosCode.EosManager.ReleaseBrokerLock` | src/producer/eosManager/index.js:358-360 | releases the broker's lock to its first waiter, other locks untouched |
| `ProducerRuns.StepKeepsLocks` | src/producer/sendMessages.js:79-123 | every step of every send keeps each broker's lock taken exactly while one send is inside and its waiters the waiting sends |
| `SequenceRuns.SequencesTile` | src/producer/sendMessages.js:79-123 | over every interleaving with fixed leaders and below 2^31 - 1 messages per partition: one holder per broker, every sequence number below a partition's acknowledged count is used by exactly one acknowledged batch and no other number is, and failed requests leave the counter unchanged |
| `SequenceRuns.StepKeeps` | src/producer/sendMessages.js:79-123 | each step keeps the invariant that ties counters, log and the request in flight |
| `SequenceRuns.TiledCovers` | src/producer/eosManager/index.js:195-232 | batches that start where earlier ones end use each number below the total exactly once |
| `TransactionRuns.Transactions` | src/producer/eosManager/index.js:237-333 | over every run whose commits and aborts do not overlap registrations: produce requests go only to partitions registered in their own open transaction, at most one EndTxn per transaction and exactly when a registration was acknowledged, READY means nothing is registered; which flag an EndTxn carries is `EndCarriesFlag` |
| `TransactionHistory.EndAsksFor` | src/producer/eosManager/index.js:288-333 | with something registered, commit enters COMMITTING, abort enters ABORTING, and the request that goes out is one EndTxn with the caller's flag; otherwise the manager is READY with nothing sent |
| `TransactionHistory.EndCarriesFlag` | src/producer/eosManager/index.js:300-305 | over every run: an EndTxn carries the flag of the commit or abort call of its transaction, COMMITTING is only after a commit call, ABORTING only after an abort call |
| `TransactionHistory.HistoryGrows` | src/producer/eosManager/index.js:237-333 | the history gains at most one entry a step, and only one that the step's call or positive answer explains |
| `TransactionHistory.LogGrows` | src/producer/sendMessages.js:92-120 | the log of acknowledged batches grows by exactly a request's batches on its positive answer and never otherwise |
| `TransactionRuns.StepKeeps` | src/producer/sendMessages.js:81-104 | each step keeps registry, history and outstanding calls in agreement |
| `TransactionRuns.EndIsSafe` | src/producer/eosManager/index.js:288-333 | ending a transaction keeps every continuation legal exactly when no registration is out |
| `TransactionRuns.FailedEndSticks` | src/producer/eosManager/index.js:288-333 | after a commit or abort failed, in its coordinator look-up or its request, no call, initProducerId included, changes the transaction state again, exactly when no initProducerId was under way |
| `Grouping.MergeTopics` | src/producer/messageProducer.js:83-93 | repeated topics are merged, every topic keeps its messages in input order |
| `Grouping.ItemsInOrder` | src/producer/messageProducer.js:83-93 | where each message of each entry of a topic is in the merged topic |
| `Grouping.OfSelects` | src/producer/groupMessagesPerPartition.js:1-11 | a partition's list is exactly the messages that the partitioner sends there, each once, in input order |
| `Grouping.GroupMessages` | src/producer/groupMessagesPerPartition.js:1-11 | a partition is in the result exactly if some message goes to it, and its list is the messages going to it, in input order |
| `Grouping.FindLeaderForPartitions` | src/cluster/index.js:316-334 | a node is in the result exactly if the first metadata entry of some listed partition names it, its list is those partitions in order; throws exactly when the first entry of a listed partition has no leader |
| `Grouping.LeaderIs` | src/cluster/index.js:318-330 | the leader of a partition is the one that its first metadata entry names; it is leaderless exactly if that entry names none |
| `Grouping.MessagePlaced` | src/producer/sendMessages.js:67-77 | a message whose partition's first metadata entry names a leader is in that leader's request, in its partition's list of all messages of the partition in input order |
| `Grouping.CarriedIsLed` | src/producer/sendMessages.js:67-77 | whatever a node's request carries is the whole list of a partition that the node leads and that some message goes to |
| `Grouping.TopicOnce` | src/producer/createTopicData.js:1-12 | once topics are merged, a request names a topic at most once |
| `Grouping.UnlistedIsDropped` | src/cluster/index.js:318-324 | a partition without a metadata entry is in no request |
| `SendRuns.ResolvedIsDelivered` | src/producer/sendMessages.js:18-169 | whenever a send resolves after any pattern of harmless failures and retries, every message whose partition's first metadata entry names a leader was in a successful produce to that leader, among all messages of its partition in input order |
| `SendRuns.AcknowledgedIsNotAskedAgain` | src/producer/sendMessages.js:64-67 | over every run after a broker's success: no later attempt sends it another request, unless another request to it fails late |
| `SendRuns.LaunchAsks` | src/producer/sendMessages.js:64-67 | an attempt asks exactly the brokers in the response map that have no response |
| `SendRuns.DeliveredByAnswer` | src/producer/sendMessages.js:114-120 | a node counts as delivered to exactly from a successful answer to a request to it on |
| `SendRuns.LateFailureExact` | src/producer/sendMessages.js:56-66 | a failure during broker look-up is safe for every continuation exactly when its node is still to be looked up, was delivered to, leads nothing or is listed as another object |
| `SendRuns.LateFailureLoses` | src/producer/sendMessages.js:118-120 | a run that resolves although one broker never got its messages |
| `SendRuns.StepKeeps` | src/producer/sendMessages.js:58-135 | each step keeps every leader delivered, asked, listed or still to be looked up |
| `SendRuns.SendCall.StartAttempt` | src/producer/sendMessages.js:127-133 | a new attempt looks all leaders up again, or launches at once when there are none |
| `SendRuns.SendCall.OnBrokerFound` | src/producer/sendMessages.js:56-67 | the broker joins the map without a response unless present, and the last look-up launches the requests |
| `SendRuns.SendCall.OnAnswer` | src/producer/sendMessages.js:92-134 | success records the response, failure removes the broker, and the attempt's Promise.all ends at the first failure or the last success |
| `AbortedFilter.Filter` | src/consumer/filterAbortedMessages.js:33-64 | the one-pass loop computes the pass that `OnePassIsRight` and `OnePassExact` speak of |
| `AbortedFilter.OnePassIsRight` | src/consumer/filterAbortedMessages.js:33-64 | with at most one aborted transaction per gap, the result holds a message iff it is not a transactional non-marker with an aborted entry of its producer at or before it and no abort marker of that producer in between, in offset order |
| `AbortedFilter.OnePassExact` | src/consumer/filterAbortedMessages.js:42-51 | the result is that for all contents exactly when the offsets have at most one aborted transaction per gap |
| `AbortedFilter.CrowdedGoesWrong` | src/consumer/filterAbortedMessages.js:42-51 | wherever two aborted transactions start in one gap there are messages for which the result is wrong |
| `Batches.MessagesInOrder` | src/consumer/batch.js:19-34 | exposed messages are in offset order, at or after the fetched offset, not control records, and at most the last offset |
| `Batches.MessagesComplete` | src/consumer/batch.js:23-33 | a raw message in the window that is neither control nor dropped is exposed |
| `Batches.ExposedExactly` | src/consumer/batch.js:19-34 | with one aborted transaction per gap, exactly the raw messages at or after the fetched offset that are neither control records nor in an aborted transaction are exposed |
| `Offsets.OffsetManager.NextOffset` | src/consumer/offsetManager/index.js:72-83 | the resolved offset, else the committed one, which is remembered, else zero |
| `Offsets.OffsetManager.ResolveOffset` | src/consumer/offsetManager/index.js:106-110 | resolving an offset makes the next one the position, other partitions untouched |
| `Offsets.Uncommitted` | src/consumer/offsetManager/index.js:219-244 | exactly the resolved offsets that are not negative and differ from the committed ones, with their values |
| `Offsets.OffsetManager.CommitAcknowledged` | src/consumer/offsetManager/index.js:267-279 | the offsets that were sent become the committed ones, other partitions keep theirs |
| `Offsets.CommitLeaves` | src/consumer/offsetManager/index.js:246-281 | whatever is resolved and committed while a commit is awaited: what was sent is committed, and of its partitions exactly those are left to commit that were resolved to another offset since |
| `Offsets.QuietCommitLeavesNothing` | src/consumer/offsetManager/index.js:246-281 | with nothing resolved or committed in between, nothing is left to commit |
| `ConsumerRuns.Delivery` | src/consumer/runner.js:218-262 | over every interleaving of fetches, late answers, hand-overs, handler successes and failures, commits in flight, re-joins and restarts: every plain record between the initial and the committed offset was handled successfully |
| `ConsumerRuns.HandledIsCommitted` | src/consumer/offsetManager/index.js:246-281 | after a successful handler call the next fetch asks for the offset after it, and a commit that is sent, stored and acknowledged brings the coordinator there, from where a restarted consumer goes on |
| `ConsumerRuns.StepKeeps` | src/consumer/runner.js:378-462 | each step keeps everything below each resolved, asked, sent, stored and committed offset handled, and the batch in hand complete |
| `ConsumerRuns.AnswerKeeps` | src/consumer/consumerGroup.js:482-546 | an answer, however late, is claimed with everything below its fetch offset handled, or dropped |
| `ConsumerRuns.TakeKeeps` | src/consumer/runner.js:420-450 | a batch handed over, also one emptied by filtering and also a stale one, moves the position past no record still to be handled |
| `ConsumerRuns.HandMoves` | src/consumer/fetcher.js:49-66 | a consumer run claims, takes, settles and releases the partition exactly as the scheduler's place machine does |
| `SessionOrder.OneFetcherKeepsOrder` | src/consumer/fetcher.js:53-66 | a partition that stays with one fetcher is handled in strictly increasing offset order in every session of every run |
| `SessionOrder.ClaimsGiveOrder` | src/consumer/fetcher.js:30-47 | if every answer that finds the partition free was asked for above everything handled in the session, all hand-overs are in order |
| `SessionOrder.SessionInOrder` | src/consumer/runner.js:218-262 | in every run whose hand-overs are in order the offsets handled in a session strictly increase |
| `SessionOrder.HandOverExact` | src/consumer/runner.js:420-450 | order survives a hand-over in every continuation with fresh batches exactly when the batch goes on after the session: its first exposed message, or the offset it resolves if filtering emptied it |
| `SessionOrder.NextHandOver` | src/consumer/runner.js:420-450 | the same after every run whose hand-overs were in order so far |
| `SessionOrder.StaleAnswerRepeats` | src/consumer/consumerGroup.js:482-504 | a run of two fetchers in which an answer asked for earlier is claimed after the release and message 6 is handled twice in one session |
| `ConsumerRuns.UncoveredFetch` | src/consumer/batch.js:77-80 | a batch with only records below the fetch offset resolves that offset, which skips a record exactly when one stands there unhandled |
| `ConsumerRuns.UncoveredFetchLoses` | src/consumer/batch.js:77-80 | a run in which such a fetch commits past an unhandled record |
| `ConsumerRuns.ProcessEachMessage` | src/consumer/runner.js:218-262 | the loop handles messages in order up to the first failure and resolves exactly the last handled one |
| `Scheduler.Scheduling` | src/consumer/fetcher.js:26-66 | over every run of fetchers and workers: at most one batch of a partition is queued or being handled, no batch is handled twice, a push returns only after each of its batches was handled exactly once, no batch is lost |
| `Scheduler.FirstPushedFirstTaken` | src/consumer/workerQueue.js:22-35 | over every run the workers get the batches in the order they were pushed, leaving none out |
| `Scheduler.AvailableSelects` | src/consumer/fetcher.js:30-47 | the batches kept are exactly those of partitions that no other fetcher holds, each once, in order |
| `Scheduler.StepKeeps` | src/consumer/workerQueue.js:22-35 | each step keeps every pushed batch in exactly one of queue, work and handled, its partition claimed by its fetcher |
| `Places.OnePlace` | src/consumer/fetcher.js:26-29 | the claim map, queue, workers and settled batches put each partition in exactly one place |
| `Places.PlaceMoves` | src/consumer/fetcher.js:49-66 | each step moves a partition along free, queued, working, done, free, or drops the batch of a partition that is claimed |
| `Scheduler.FetchScheduler.FilterUnassigned` | src/consumer/fetcher.js:30-47 | keeps exactly the batches of partitions that no other fetcher holds, in order |
| `Scheduler.FetchScheduler.FetchReturned` | src/consumer/fetcher.js:55-62 | claims, queues and waits for the available batches |
| `Scheduler.FetchScheduler.TakeNext` | src/consumer/worker.js:21-26 | an idle worker takes the head of the queue |
| `Scheduler.FetchScheduler.Settle` | src/consumer/worker.js:28-33 | a handled batch settles, resolved or rejected |
| `Scheduler.FetchScheduler.PushReturned` | src/consumer/fetcher.js:61-65 | partitions are released once all of the push's batches have settled |
| `RoundRobin.Assign` | src/consumer/assigners/roundRobinAssigner/index.js:39-61 | each sorted member gets exactly every n-th topic-partition, grouped by topic in order, and members without any are absent |
| `RoundRobin.EverySlotOnce` | src/consumer/assigners/roundRobinAssigner/index.js:49-61 | all members together hold each topic-partition as often as it is listed |
| `RoundRobin.SlotsInOrder` | src/consumer/assigners/roundRobinAssigner/index.js:44-47 | the partitions of each listed topic follow those of the topics before it, in metadata order |
| `RoundRobin.AssignmentIs` | src/consumer/assigners/roundRobinAssigner/index.js:49-61 | member j is assigned exactly the topic-partitions at positions j, j + n, j + 2n and so on |
| `RoundRobin.OneMemberEach` | src/consumer/assigners/roundRobinAssigner/index.js:39-61 | if topics and partitions are listed once, every partition of every listed topic belongs to exactly one member |
| `RoundRobin.PartitionsForSelects` | src/consumer/assigners/roundRobinAssigner/index.js:52-60 | a share lists a topic's partitions in the order they were dealt |
| `RoundRobin.LoadsBalanced` | src/consumer/assigners/roundRobinAssigner/index.js:49-50 | the loads of two members differ by at most one |
| `RoundRobin.MemberOrderIsIrrelevant` | src/consumer/assigners/roundRobinAssigner/index.js:41-41 | the order in which members are listed does not change the sorted members |
| `RoundRobin.ShareHas` | src/consumer/assigners/roundRobinAssigner/index.js:52-60 | pushing topic-partitions one by one gives each topic once with its partitions in order |
| `RoundRobin.MemberDecodesItsShare` | src/consumer/assigners/roundRobinAssigner/index.js:63-69 | a member decodes exactly its share unless a topic is named `__proto__`, and always all other topics |
| `AssignerProtocol.AssignmentRoundTrip` | src/consumer/assignerProtocol.js:47-81 | decoding an encoded assignment gives it back exactly when no topic is named `__proto__` |
| `AssignerProtocol.MetadataRoundTrip` | src/consumer/assignerProtocol.js:13-31 | decoding encoded member metadata gives version, topics and user data back |

## Left out

- Sockets, TLS, logging, instrumentation, retry delays and clock readings: events and parameters stand for them.
- The authentication branch of processData, SASL and the other authenticators.
- Compressed batches and the codecs; legacy message sets (a fetch whose magic byte is not 2).
- The per-API request and response files, compact byte strings and non-empty tagged fields.
- Strings are their UTF-8 bytes; encoding and decoding of text is not modelled.
- Announced sizes below -1: JavaScript's slices with negative ends are not modelled, the model stops with an error there; `Connections` likewise stops at a frame size below 4.
- Buffers of 2^30 bytes and more, where the encoder's next power of two is negative or too small (`NextPowerOfTwoExact`), and byte arrays of 2^31 bytes and more in `Murmur2`.
- The legacy murmur2 partitioner and the choice of a partition for keyless messages: a send's partitioner is a function of topic and message.
- `SocketRequest` objects: their states are kept by request number in the queue's state, with the same guard; timing fields are left out.
- Sequences and transactions while a producer id is asked for again, which replaces counters and locks: those runs belong to one initialised producer, as the source asks for the id once; `FailedEndSticks` covers the call.
- Leadership changes during a send or between sends: leaders and metadata are fixed within a run.
- The retry of txnOffsetCommit inside sendOffsets, which touches no modelled state.
- eachBatch mode, seek, pause and resume, and user commits in the consumer runs.
- The isRunning and running flags: a stopped fetcher or runner is one whose events no longer occur.
- Liveness of workers and fetchers: that a queued batch is eventually taken depends on the order of microtasks.
- Joining and syncing a consumer group; group member ids that are names of `Object.prototype` properties, and the key order of a share whose topic names look like array indices.
