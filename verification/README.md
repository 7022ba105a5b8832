# A verified model of FlowSQL's channel cores

This project models the stateful cores of FlowSQL's channel plugins in Dafny and proves what they keep over every run.
One module stands for one source file or one protocol on top of several.

- **Packet stream** (`Bytes`, `Errno`, `PacketWire`, `WireCodec`, `SinkCodec`, `Producer`, `PacketWriter`, `PacketReader`,
  `PacketReaderRuns`, `PartitionLog`). `PacketWire` defines the `FSPK` message twice, as a layout that is written and as
  a parse of a byte string, and proves that they are inverse. `WireCodec` holds the source's loops over a byte cursor,
  each proved against those definitions. The writer and reader are classes whose methods are proved against step
  functions. `PartitionLog` composes any number of writers, one partition log and a reader, and proves the end-to-end
  theorems over every run of the reader: what it delivers is a contiguous run of one writer's polls carrying exactly
  what it encoded, but for the fact generation, which is the reader's own, and a writer alone in the log from the reader's start is never rejected. That its fact sequences rise
  is proved from the sink codec's progress trackers, not assumed.
- **Structured stream and delivery** (`StructuredReader`, `ResultWriter`, `Producer`). `Produce` runs against delivery
  callbacks that may arrive at every point, also after the call has closed its books. `ResultWriter.Write` splits a
  batch into windows with a carried-over message.
- **Semantics registry** (`SemanticsModel`, `SemanticsRegistry`, `SemanticsRuns`, `OperatorUse`, `UseExamples`). The
  four tables are one value, a save may fail half way at every write, and a batch restores the value it began with. A run
  of the registry is a chain of committed saves; all invariants are proved over every chain.
- **Connection store and plugin** (`KafkaStore`, `KafkaPlugin`). Secrets, leases that pin revisions, sessions,
  verification jobs and shutdown. Each method of `Plugin` is one section under a lock, so the interleavings of the
  threads are the sequences of calls.
- **Validators and codecs** (`SchemaRules`, `SchemaEvaluator`, `SchemaKeywords`, `SchemaMeaning`, `JsonContent`,
  `YamlHandler`, `Utf8`, `Base64`, `CaptureBudget`, `ConfigPaging`). The schema evaluator with its shared budget is proved against a meaning of schemas
  that knows no budget, depth or order: `Step` applies the rules of the keywords once to a set of pairs (schema, value),
  and `Level(c, n, g)` applies it `n` times to an arbitrary set `g`. An answer is settled when it is the same for every
  `g`. `SchemaKeywords` says of each keyword what it demands in terms of the schema's members alone.

Where something runs in another thread or outside the program (callbacks, cancels, deadlines, commit outcomes, storage
failures, topology checks, random identifiers), the model lets it happen or fail at every point where the source allows
it; the contracts hold for all of these choices. A `healthy` database is one whose statements do not fail by themselves;
what then still fails has a cause in the request or the tables.

Three results differ from what one might expect of the code:

- `StructuredReader.AcknowledgeBlock` does not look at the reader's terminal error, unlike `PacketReader`. A block that
  was handed out before a poll failed can still be committed. `CommitIgnoresTerminalError` gives the exact condition
  under which a commit is submitted, and `CommitAfterErrorExample` a run that does so.
- `RecordUse` names dictionaries at revision 1 and looks bindings up before its batch. Every name resolves, but it need
  not name the observed document. `UseNamedWhen` gives the exact condition for each kind of reference, in terms of the
  tables before the batch. `DictionaryMissed` is a recording, with nobody interfering, that names another dictionary, and
  `BindingMissed` one that names another binding because of saves after the lookup.
- A call of `Stop` waits only for the verification jobs that it took over itself. When two calls overlap, as `Unload`
  makes possible, the second may return while a job of the first holds a lease: `SecondStopReturns`. `StopReturns` says
  exactly when nothing is left.

## Model

| member | source | states |
|---|---|---|
| `Bytes.ByteBuffer.Put` | src/channels/kafka/kafka_packet.cpp:40-42 | the loop over byte positions appends exactly the big-endian field of that width |
| `Bytes.Get` | src/channels/kafka/kafka_packet.cpp:35-39 | the loop reads back the number that the field at that place denotes |
| `Bytes.ValueOfBigEndian` | src/channels/kafka/kafka_packet.cpp:35-42 | reading a written field gives the number, if the field was wide enough |
| `Bytes.BigEndianOfValue` | src/channels/kafka/kafka_packet.cpp:35-42 | writing what was read gives the bytes back |
| `PacketWire.ParseOfLayout` | src/channels/kafka/kafka_packet.cpp:280-326 | parsing a laid-out envelope gives it back, but for the local fact generation |
| `PacketWire.LayoutOfParse` | src/channels/kafka/kafka_packet.cpp:243-278 | laying out what parsed gives the same bytes, so every accepted byte string has one envelope |
| `PacketWire.AcceptableIffCarries` | src/channels/kafka/kafka_packet.cpp:50-90 | a message passes the scan exactly when it is the carrier of an envelope that meets the contract |
| `PacketWire.DecodeOfEncode` | src/channels/kafka/kafka_packet.cpp:243-326 | decoding what was encoded gives the envelope back, wherever the message landed |
| `PacketWire.EncodeOfDecode` | src/channels/kafka/kafka_packet.cpp:243-326 | encoding what was decoded gives the same key and value |
| `PacketWire.EncodeInjective` | src/channels/kafka/kafka_packet.cpp:280-326 | different envelopes have different messages |
| `PacketWire.LayoutSize` | src/channels/kafka/kafka_packet.cpp:283-291 | the size computed before encoding is the size of the encoded bytes |
| `PacketWire.StripMeets` | src/channels/kafka/kafka_packet.cpp:266-276 | the contract does not look at the fact generation that the wire drops |
| `WireCodec.Input` | src/channels/kafka/kafka_packet.cpp:43-47 | finds the configured input of a source, if there is one |
| `WireCodec.PreflightHeader` | src/channels/kafka/kafka_packet.cpp:52-59 | the header checks accept exactly the headers of the contract |
| `WireCodec.ScanRow` | src/channels/kafka/kafka_packet.cpp:64-75 | one row is consumed exactly, never read past the end, and refused when it breaks a rule |
| `WireCodec.ScanRows` | src/channels/kafka/kafka_packet.cpp:60-76 | the row loop consumes exactly the rows of the parse and keeps the latest time of each source |
| `WireCodec.ScanFact` | src/channels/kafka/kafka_packet.cpp:80-88 | the verdict on one fact, given the rows and the facts before it |
| `WireCodec.ScanFacts` | src/channels/kafka/kafka_packet.cpp:77-88 | the fact loop accepts exactly the fact tables of the contract |
| `WireCodec.Preflight` | src/channels/kafka/kafka_packet.cpp:50-90 | the whole scan stays in bounds and accepts exactly the acceptable messages |
| `WireCodec.DecodeRows` | src/channels/kafka/kafka_packet.cpp:253-265 | after the scan the unchecked row reads are in bounds and give the parsed rows |
| `WireCodec.DecodeFacts` | src/channels/kafka/kafka_packet.cpp:266-276 | after the scan the unchecked fact reads are in bounds and give the parsed facts |
| `WireCodec.DecodePacket` | src/channels/kafka/kafka_packet.cpp:243-278 | gives the one envelope of an acceptable message, and refuses every other message |
| `WireCodec.CheckSizes` | src/channels/kafka/kafka_packet.cpp:281-291 | refuses only envelopes that break the contract; what passes fits the limits |
| `WireCodec.CarrierVerdict` | src/channels/kafka/kafka_packet.cpp:324 | the final scan of an encoded message decides whether the envelope meets the contract |
| `WireCodec.EncodePacket` | src/channels/kafka/kafka_packet.cpp:280-326 | gives the carrier of an envelope that meets the contract, and refuses exactly the others |
| `SinkCodec.PacketSinkCodec.Open` | src/channels/kafka/kafka_packet.cpp:117-139 | opens once, only when the largest envelope of the sources fits one message; then each source has one tracker, for its queue and generation, and all share the codec's domain and generation |
| `SinkCodec.ValidateSources` | src/framework/interfaces/icapture_block_stream_reader.h:128-149 | the two nested loops accept exactly the source sets with valid limits and distinct named inputs of one domain and generation |
| `SinkCodec.PacketSinkCodec.Collect` | src/channels/kafka/kafka_packet.cpp:154-179 | the row loop copies the batch within the byte limit with strictly rising sequences |
| `SinkCodec.Observe` | src/framework/core/capture_progress_tracker.h:49-121 | a tracker takes exactly the facts of its own queue and generation that rise and are consistent, and then remembers the sequence |
| `SinkCodec.PacketSinkCodec.ObserveAll` | src/channels/kafka/kafka_packet.cpp:183-190 | all facts go through the trackers or none of the changes is kept |
| `SinkCodec.PacketSinkCodec.Encode` | src/channels/kafka/kafka_packet.cpp:140-194 | a refused encoding leaves trackers and last sequence as they were; a successful one puts the event's own packets and facts into the message and leaves the last sequence and each fact's tracker at its number, the others as they were |
| `SinkCodec.NeverRefusedForSize` | src/channels/kafka/kafka_packet.cpp:117-126 | after opening, an envelope that meets the wire rules also fits the message size |
| `SinkCodec.FactsFitSources` | src/channels/kafka/kafka_packet.cpp:123-125 | facts of distinct known sources are no more than the sources, which the budget relies on |
| `SinkCodec.TrackedRises` | src/framework/core/capture_progress_tracker.h:49-121 | a fact that the trackers take rises above the last one of its source |
| `SinkCodec.TrackedMonotone` | src/framework/core/capture_progress_tracker.h:49-121 | no observed fact lowers a source's last sequence |
| `SinkCodec.TrackedWhen` | src/channels/kafka/kafka_packet.cpp:183-190 | a list of facts is taken exactly when each has a known source, its queue and generation, a sequence above all that came before it, and consistent contents |
| `SinkCodec.TrackedEnds` | src/channels/kafka/kafka_packet.cpp:183-192 | facts of distinct sources leave each of their trackers at the fact's sequence, and the others as they were |
| `Producer.CheckSizes` | src/channels/kafka/kafka_producer.cpp:67-73 | the size loop accepts exactly the lists within all limits |
| `Producer.ProducerSession.Screen` | src/channels/kafka/kafka_producer.cpp:60-81 | each refusal has its own number: cancelled, failed or a bad timeout or count, sizes; what passes is within all limits |
| `Producer.Receipt.Delivered` | src/channels/kafka/kafka_producer.cpp:26-37 | a callback counts once while the receipt is open, and changes nothing once it is closed |
| `Producer.Receipt.Close` | src/channels/kafka/kafka_producer.cpp:132-139 | closing splits the messages into confirmed, not sent and unknown without remainder |
| `Producer.ProducerSession.SendAll` | src/channels/kafka/kafka_producer.cpp:86-116 | offers the messages in order, each once, until one is refused, the credentials are lost, the call is cancelled or the time is over |
| `Producer.ProducerSession.Wait` | src/channels/kafka/kafka_producer.cpp:117-131 | returns 0 only when every accepted message had its callback |
| `Producer.ProducerSession.Produce` | src/channels/kafka/kafka_producer.cpp:59-146 | for every interleaving with callbacks the three counts add up, 0 means all confirmed, and the queue took a prefix |
| `PacketWriter.PacketSinkWriter.Open` | src/channels/kafka/kafka_packet_writer.cpp:81-105 | without a cancel it succeeds exactly from created, with valid sources that fit and a working producer; any failure ends failed, or cancelled |
| `PacketWriter.PacketSinkWriter.Publish` | src/channels/kafka/kafka_packet_writer.cpp:121-166 | encodes with the next poll sequence, which is used up exactly when the message may have been sent |
| `PacketWriter.PacketSinkWriter.Settle` | src/channels/kafka/kafka_packet_writer.cpp:167-181 | books the delivery of the message and of all its packets |
| `PacketWriter.PacketSinkWriter.Write` | src/channels/kafka/kafka_packet_writer.cpp:106-182 | the new state is the step of the event and its fate; an uncancelled failure is a refused event, no time left, an exception, or the result of `Produce`, each with its number |
| `PacketWriter.PacketSinkWriter.Finish` | src/channels/kafka/kafka_packet_writer.cpp:183-194 | the new state is the step of this call, or of a cancel during the drain and then this call; a failed drain ends failed, or cancelled |
| `PacketWriter.StepMeans` | src/channels/kafka/kafka_packet_writer.cpp:106-182 | field by field: a time-out that says nothing changes nothing; any other event counts once with all its packets, takes the next number exactly when it may have been sent, and keeps the writer open exactly when it was confirmed |
| `PacketWriter.CallKeepsBooks` | src/channels/kafka/kafka_packet_writer.cpp:106-203 | every call keeps input = confirmed + not sent + unknown, the poll number, and at most one unconfirmed message |
| `PacketWriter.BooksOverRuns` | src/channels/kafka/kafka_packet_writer.cpp:106-203 | the same over every sequence of calls |
| `PacketWriter.ClosedForGood` | src/channels/kafka/kafka_packet_writer.cpp:73-80 | a writer that left the open state publishes and counts nothing more |
| `PacketReader.ConsumerSession.PollMessage` | src/channels/kafka/kafka_client.cpp:293-334 | a cancel and lost ownership are sticky: after them no message is returned; an unopened consumer or a topology error comes first |
| `PacketReader.ConsumerSession.CommitOffsets` | src/channels/kafka/kafka_client.cpp:336-385 | a commit is submitted exactly when the session is live, owns its partition, and the checks before it pass |
| `PacketReader.ConsumerSession.PacketRebalance` | src/channels/kafka/kafka_client.cpp:386-399 | only the first assignment of exactly partition 0 is taken; everything else loses ownership for good |
| `PacketReader.PacketReader.Open` | src/channels/kafka/kafka_packet_reader.cpp:53-69 | opens once, only before a cancel; a failed subscription is terminal, a missing consumer is not |
| `PacketReader.PacketReader.Close` | src/channels/kafka/kafka_packet_reader.cpp:74-80 | cancels the session and drops the block in hand, so nothing more is delivered or committed |
| `PacketReader.PacketReader.Inspect` | src/channels/kafka/kafka_packet_reader.cpp:110-140 | accepts exactly the messages that follow what was delivered: identity, stream, poll, packet and fact order; each refusal has the number of the first check that fails |
| `PacketReader.PacketReader.InspectRows` | src/channels/kafka/kafka_packet_reader.cpp:126-133 | the loop finds whether packet sequences rise strictly from the last one |
| `PacketReader.PacketReader.NoteFacts` | src/channels/kafka/kafka_packet_reader.cpp:178 | the loop records the sequence of each fact's source |
| `PacketReader.PacketReader.PollCapture` | src/channels/kafka/kafka_packet_reader.cpp:87-185 | the reply and new state of each case; a delivered block is the decoded message with the same facts in the same order, each with the reader's own generation |
| `PacketReader.PacketReader.AcknowledgeBlock` | src/channels/kafka/kafka_packet_reader.cpp:186-200 | commits one past the current offset, for the outstanding block, once; succeeds exactly when the commit does; a failed commit is terminal |
| `PacketReader.PacketReader.ReleaseBlock` | src/channels/kafka/kafka_packet_reader.cpp:201-207 | releasing an unacknowledged block is terminal |
| `PacketReaderRuns.AtLeastOnceOverRuns` | src/channels/kafka/kafka_packet_reader.cpp:87-207 | over every run, what was fetched before a commit is in the committed block or in one acknowledged with success, and so is every earlier block |
| `PacketReaderRuns.AcksCommittedOverRuns` | src/channels/kafka/kafka_packet_reader.cpp:186-200 | over every run, each acknowledgement with success submitted one past its block if the reader commits, and nothing is submitted otherwise |
| `PacketReaderRuns.KilledForGood` | src/channels/kafka/kafka_packet_reader.cpp:70-207 | a rejection, an early release, a cancel, closing or a lost assignment delivers and commits nothing, and neither does any continuation |
| `PacketReaderRuns.DiesOnlyBy` | src/channels/kafka/kafka_packet_reader.cpp:53-207 | a live reader dies of exactly the listed calls; every other call, time-outs and calls out of turn included, leaves it alive |
| `PacketReaderRuns.OutOfTurn` | src/channels/kafka/kafka_packet_reader.cpp:53-207 | a poll with a block in hand, and an acknowledgement or release of another block, change nothing |
| `PacketReaderRuns.FullTurn` | src/channels/kafka/kafka_packet_reader.cpp:87-207 | an admissible message can be delivered, acknowledged and released, and then the reader polls again one further |
| `PacketReaderRuns.OneBlockAtATime` | src/channels/kafka/kafka_packet_reader.cpp:87-207 | in every run from a delivery on, nothing is fetched or delivered until that block is released |
| `PacketReaderRuns.DeliveryExtends` | src/channels/kafka/kafka_packet_reader.cpp:110-182 | an admitted message extends the delivered stream by exactly the next poll |
| `PacketReaderRuns.StepContiguous` | src/channels/kafka/kafka_packet_reader.cpp:87-185 | every call keeps the delivered blocks contiguous |
| `PacketReaderRuns.ContiguousOverRuns` | src/channels/kafka/kafka_packet_reader.cpp:87-185 | over every run, each block is its decoded message with the reader's own fact generation; one epoch and capture generation, polls stepping by one, packet and fact sequences strictly rising |
| `PartitionLog.WorldOverRuns` | src/channels/kafka/kafka_packet_writer.cpp:106-182 | for any writers joining, publishing and stopping, each log entry is the next unsent message of its writer, with the packets and facts of the event it was made from |
| `PartitionLog.QueuedIsSent` | src/channels/kafka/kafka_packet_writer.cpp:137-166 | the message that a write puts into the client's queue is the carrier of the envelope counted as sent |
| `PartitionLog.EntryDecodes` | src/channels/kafka/kafka_packet.cpp:243-326 | whatever decodes from the log is an envelope that some writer encoded |
| `PartitionLog.OneWriter` | src/channels/kafka/kafka_packet_reader.cpp:120-125 | contiguous blocks fetched from the log all come from one writer |
| `PartitionLog.DeliveredFromOneWriter` | src/channels/kafka/kafka_packet_reader.cpp:87-185 | end to end: every run of a reader over every log delivers consecutive polls of one writer, each the sent envelope with exactly the fact generations replaced by the reader's, and the packets and facts of the published event |
| `PartitionLog.CompatibleContract` | src/channels/kafka/kafka_packet.cpp:196-241 | an envelope of the sink's contract meets the contract of every source configuration that covers it |
| `PartitionLog.NextAdmitted` | src/channels/kafka/kafka_packet_reader.cpp:110-140 | a reader in step with a writer admits that writer's next message |
| `PartitionLog.InPaceOverRuns` | src/channels/kafka/kafka_packet_reader.cpp:87-207 | over every run of a reader on a lone writer's log, the reader stays in step: each fetch is delivered, everything else leaves its place alone |
| `PartitionLog.LoneWriterNeverRejected` | src/channels/kafka/kafka_packet_reader.cpp:87-185 | end to end, for every run of a reader: a log with one writer from the start offset is never rejected, and the blocks carry that writer's envelopes in order, with the reader's fact generation |
| `StructuredReader.Session.PollMessage` | src/channels/kafka/kafka_client.cpp:293-334 | a cancel is sticky: after it no message is returned |
| `StructuredReader.StructuredReader.Open` | src/channels/kafka/kafka_reader.cpp:18-28 | opens once, only before a cancel; unlike in the packet reader, a failure is not terminal |
| `StructuredReader.StructuredReader.Close` | src/channels/kafka/kafka_reader.cpp:29-36 | cancels the session and drops the block in hand |
| `StructuredReader.StructuredReader.Collect` | src/channels/kafka/kafka_reader.cpp:53-66 | the polling loop gathers what is offered, in order, up to a limit or the first pause, and one past the greatest offset of each partition; a batch is lost only to a session failure or an invalid position |
| `StructuredReader.StructuredReader.PollBlock` | src/channels/kafka/kafka_reader.cpp:46-73 | the reply and new state of each case; a batch ends only at a limit or a pause, and fails only with a cause |
| `StructuredReader.StructuredReader.AcknowledgeBlock` | src/channels/kafka/kafka_reader.cpp:74-84 | commits the positions of the outstanding block, once |
| `StructuredReader.StructuredReader.ReleaseBlock` | src/channels/kafka/kafka_reader.cpp:85-91 | releasing an unacknowledged block is terminal |
| `StructuredReader.AtLeastOnceOverRuns` | src/channels/kafka/kafka_reader.cpp:46-91 | over every run, what was fetched before a commit is in the committed block or in one acknowledged with success, and so is every earlier block |
| `StructuredReader.AtLeastOnceFromNew` | src/channels/kafka/kafka_reader.cpp:12-91 | the same for every run from a new reader, opening and closing included |
| `StructuredReader.CommitHonest` | src/channels/kafka/kafka_reader.cpp:74-84 | a commit covers its own block exactly, with every earlier block acknowledged with success before |
| `StructuredReader.KilledForGood` | src/channels/kafka/kafka_reader.cpp:29-91 | a rejected batch, an early release, a cancel or closing delivers and commits nothing, and neither does any continuation |
| `StructuredReader.DiesOnlyBy` | src/channels/kafka/kafka_reader.cpp:18-91 | commits end by exactly the listed calls; a failed commit or a poll out of turn is not among them |
| `StructuredReader.OutOfTurn` | src/channels/kafka/kafka_reader.cpp:46-91 | a poll with a block in hand, and an acknowledgement or release of another block, change nothing |
| `StructuredReader.FullTurn` | src/channels/kafka/kafka_reader.cpp:46-91 | a batch can be delivered, acknowledged and released, and then the reader polls again |
| `StructuredReader.OneBlockAtATime` | src/channels/kafka/kafka_reader.cpp:46-91 | in every run from a delivery on, nothing is fetched or delivered until that block is released |
| `StructuredReader.CommitIgnoresTerminalError` | src/channels/kafka/kafka_reader.cpp:74-84 | in every outcome, a commit is submitted if and only if not cancelled, the block current and unacknowledged, the session alive and the reader commits; any terminal error allows the same outcome |
| `StructuredReader.CommitAfterErrorExample` | src/channels/kafka/kafka_reader.cpp:41-84 | a run that commits after the reader became terminal |
| `ResultWriter.ResultWriter.Take` | src/channels/kafka/kafka_writer.cpp:104-108 | the carried-over message, else the rendering of the next row with its own ordinal; refused only if there is none or it breaks the key or size limit |
| `ResultWriter.ResultWriter.Row` | src/channels/kafka/kafka_result_codec.cpp:253-307 | a row is refused exactly when its rendering fails or its key or size is over the limit |
| `ResultWriter.ResultWriter.Fill` | src/channels/kafka/kafka_writer.cpp:101-117 | a window is never empty, meets every limit of `Produce`, and holds the next rows in order; a message is carried over only if it would not fit |
| `ResultWriter.ResultWriter.Send` | src/channels/kafka/kafka_writer.cpp:124-141 | the outcome of a window is booked without remainder |
| `ResultWriter.ResultWriter.Write` | src/channels/kafka/kafka_writer.cpp:75-151 | message i sent for the batch is the rendering of row i with ordinal base + i, in bounded windows; on every exit the rows are booked without remainder, and the result says why it ended; the loop ends |
| `ResultWriter.ResultWriter.WriteRows` | src/channels/kafka/kafka_writer.cpp:91-145 | the loop over the windows: a refused row, a stop, or a failed window ends it, and the rest is booked as not sent |
| `ResultWriter.ResultWriter.Finish` | src/channels/kafka/kafka_writer.cpp:152-167 | finishes only from ready, keeps the report, and ends cancelled when a cancel comes during the drain |
| `ResultWriter.RenderedOn` | src/channels/kafka/kafka_writer.cpp:96-141 | windows one after another are the renderings of the rows in order |
| `ResultWriter.OrdinalsContinue` | src/channels/kafka/kafka_writer.cpp:81-82 | over any number of batches, the messages are the renderings of all rows with ordinals base, base + 1, and so on, without gaps |
| `ResultWriter.ExtendWindow` | src/channels/kafka/kafka_writer.cpp:109-115 | a row that is first or still fits keeps the window within all limits of `Produce` |
| `ResultWriter.AloneFits` | src/channels/kafka/kafka_result_codec.cpp:304-306 | a message that the codec lets through can always be produced in a window of its own, so a carried-over message is never stuck |
| `SemanticsModel.ParseOfExact` | src/channels/config/data_semantics_model.cpp:117-133 | the text of every proper reference parses to it |
| `SemanticsModel.ExactOfParse` | src/channels/config/data_semantics_model.cpp:117-133 | an accepted text is the text of what it parses to, so no two texts name one revision |
| `SemanticsModel.ParseSemanticsReference` | src/channels/config/data_semantics_model.cpp:117-133 | what parses has a valid name and a revision in range |
| `SemanticsModel.ReferenceExamples` | src/channels/config/data_semantics_model.cpp:103-117 | the written form of a reference of each kind |
| `SemanticsModel.CheckName` | src/channels/config/data_semantics_model.cpp:97-102 | the loop over the characters accepts exactly the valid names |
| `SemanticsModel.CheckMap` | src/channels/config/data_semantics_model.cpp:243-253 | the count and the loop accept exactly the injective maps on the dictionary's field ids |
| `SemanticsModel.CountCovers` | src/channels/config/data_semantics_model.cpp:245-253 | with distinct ids all mapped, equal counts mean that nothing else is mapped, and conversely |
| `SemanticsModel.CheckSchema` | src/channels/config/data_semantics_model.cpp:256-270 | accepts exactly the declared schemas with unique names that provide each field with type and nullability |
| `SemanticsModel.CheckSemanticsBinding` | src/channels/config/data_semantics_model.cpp:229-270 | accepts exactly the bindings that fit, observed snapshot included; matched exactly when a schema is declared |
| `SemanticsRegistry.DataSemanticsRegistry.ValidateLinks` | src/channels/config/data_semantics_registry.cpp:140-167 | succeeds exactly when every reference is stored and fits its target; not found means that one is not stored |
| `SemanticsRegistry.DataSemanticsRegistry.SaveUnlocked` | src/channels/config/data_semantics_registry.cpp:206-327 | a success is a legal save step; a refusal means that the save was not acceptable, for the reason that its error names; a healthy database fails only on a repeated reference |
| `SemanticsRegistry.DataSemanticsRegistry.Admit` | src/channels/config/data_semantics_registry.cpp:214-226 | accepts exactly the requests whose checks without the tables pass |
| `SemanticsRegistry.DataSemanticsRegistry.Compare` | src/channels/config/data_semantics_registry.cpp:230-274 | against the stored revisions: the content is current already, or the expected revision is current, its base stored and its owner free |
| `SemanticsRegistry.DataSemanticsRegistry.Store` | src/channels/config/data_semantics_registry.cpp:266-326 | the four writes of a new revision, exactly |
| `SemanticsRegistry.DataSemanticsRegistry.InsertReferences` | src/channels/config/data_semantics_registry.cpp:314-321 | the loop adds exactly the document's references, and fails on one that is repeated |
| `SemanticsRegistry.DataSemanticsRegistry.WriteBatch` | src/channels/config/data_semantics_registry.cpp:189-205 | a batch is a chain of save steps, or leaves the tables untouched; with a healthy database it stops only at a request that had to fail |
| `SemanticsRegistry.DataSemanticsRegistry.Save` | src/channels/config/data_semantics_registry.cpp:177-184 | one save step, or nothing |
| `SemanticsRegistry.DataSemanticsRegistry.BindingLookup` | src/channels/config/data_semantics_registry.cpp:328-345 | the current revision of the owner of an object key; not found means that no revision is for the key; invalid means an empty key |
| `SemanticsRegistry.SaveKeepsInv` | src/channels/config/data_semantics_registry.cpp:206-327 | every save step keeps all nine invariants of the tables, among them valid names and contracts named after their operator |
| `SemanticsRegistry.SaveExtends` | src/channels/config/data_semantics_registry.cpp:206-327 | every save step keeps all revisions, references, observations and owners |
| `SemanticsRuns.ChainKeeps` | src/channels/config/data_semantics_registry.cpp:177-327 | the invariants hold in every reachable state, and each state extends the earlier ones |
| `SemanticsRuns.HistoryIsImmutable` | src/channels/config/data_semantics_registry.cpp:206-327 | stored contents never change |
| `SemanticsRuns.NoLostUpdate` | src/channels/config/data_semantics_registry.cpp:257-258 | of two saves that created revisions of one object, the later named a later predecessor |
| `SemanticsRuns.EveryRevisionCreated` | src/channels/config/data_semantics_registry.cpp:257-326 | every revision was created by a save that named its direct predecessor and carried its content, base and note, and for a use came from its execution |
| `SemanticsRuns.RepeatIsNoOp` | src/channels/config/data_semantics_registry.cpp:238-256 | repeating a save succeeds with any expected revision, names the same revision and changes nothing |
| `SemanticsRuns.EdgeEarlier` | src/channels/config/data_semantics_registry.cpp:140-150 | each reference goes to a revision that is stored, and was stored earlier |
| `SemanticsRuns.ReferencesStored` | src/channels/config/data_semantics_registry.cpp:140-150 | in every reachable state, the links of contracts and uses, the relations of dictionaries and the dictionaries of bindings are stored, were stored earlier, and are in the reference table |
| `SemanticsRuns.ReferencesOnly` | src/channels/config/data_semantics_registry.cpp:314-321 | the reference table holds nothing else |
| `SemanticsRuns.AbsentTargetFails` | src/channels/config/data_semantics_registry.cpp:144-149 | a document that names a revision which is not stored is not saved |
| `SemanticsRuns.RelationFits` | src/channels/config/data_semantics_registry.cpp:154-164 | a stored relation maps fields to fields that its target dictionary has |
| `SemanticsRuns.NoCycle` | src/channels/config/data_semantics_registry.cpp:140-150 | no path of references returns to its start |
| `SemanticsRuns.BindingIsBijective` | src/channels/config/data_semantics_model.cpp:243-253 | a stored binding's map is injective with exactly its dictionary's field ids as domain |
| `SemanticsRuns.StoredSchemaServes` | src/channels/config/data_semantics_model.cpp:254-270 | a stored binding's declared schema has distinct names and gives each dictionary field a source of its type and nullability |
| `SemanticsRuns.StoredSnapshotAgrees` | src/channels/config/data_semantics_model.cpp:230-241 | a stored snapshot is of the binding's own object, known, confirmed, and serves the dictionary in the same way |
| `SemanticsRuns.ObservedHasSnapshot` | src/channels/config/data_semantics_registry.cpp:225-226 | only bindings with a snapshot are marked as observed |
| `SemanticsRuns.ObjectKeyOwnsName` | src/channels/config/data_semantics_registry.cpp:243-270 | two stored binding revisions have the same object key if and only if they have the same name |
| `OperatorUse.PlanBinding` | src/channels/config/operator_contract_derivation.cpp:527-543 | the plan follows the current revision of the owner of the object key, one back for identical content |
| `OperatorUse.Collect` | src/channels/config/operator_contract_derivation.cpp:475-560 | the loop over the outputs gives the writes and the references of the use, output by output |
| `OperatorUse.Commit` | src/channels/config/operator_contract_derivation.cpp:558-568 | the batch records everything or nothing; the stored use is the one directly after the expected revision, or the current one with the same document |
| `OperatorUse.RecordUse` | src/channels/config/operator_contract_derivation.cpp:469-568 | on success the use is stored directly after the expected revision or is the current one, lists its references in order, and every name in it resolves; a stale expected revision fails and changes nothing; the exact condition under which each name is right, whatever others saved |
| `OperatorUse.BindingExact` | src/channels/config/operator_contract_derivation.cpp:527-548 | if no one saved since the lookups, each binding reference names the observed binding |
| `OperatorUse.BindingFresh` | src/channels/config/operator_contract_derivation.cpp:527-548 | a planned binding revision that did not exist before the batch holds the observed binding, whatever others saved since the lookup |
| `OperatorUse.DictionaryExact` | src/channels/config/operator_contract_derivation.cpp:508-510 | revision 1 is the observed dictionary when its name had no later revision; the exact condition is in `UseNamedWhen` |
| `OperatorUse.UseNamedWhen` | src/channels/config/operator_contract_derivation.cpp:508-568 | a dictionary reference is right if and only if its name had no later revision or revision 1 was the observed one; a binding reference if and only if the planned revision was absent or the observed one |
| `OperatorUse.UseIsKept` | src/channels/config/operator_contract_derivation.cpp:561-568 | whatever the tables were, the use is the next revision after the expected current one, or the current revision with the same document |
| `OperatorUse.AllObservations` | src/channels/config/operator_contract_derivation.cpp:475-560 | each observed dictionary and binding is stored under some revision, and the binding is marked as observed, whatever others saved |
| `UseExamples.DictionaryMissed` | src/channels/config/operator_contract_derivation.cpp:508-510 | with nobody interfering, a batch succeeds whose dictionary reference names another document |
| `UseExamples.BindingMissed` | src/channels/config/operator_contract_derivation.cpp:532-568 | saves after the lookup make a batch succeed whose binding reference names another document |
| `KafkaStore.Store.Credentials` | src/channels/kafka/kafka_store.cpp:318-394 | each allowed field is kept, cleared or replaced as asked; new secrets are added and dropped ones removed, no others; a failure has a cause in the request, or a random id is taken, or the database fails |
| `KafkaStore.Store.Field` | src/channels/kafka/kafka_store.cpp:328-381 | one field; a random id that is taken fails |
| `KafkaStore.Store.DropOld` | src/channels/kafka/kafka_store.cpp:385-394 | the loop deletes exactly the previous secrets not kept in their field |
| `KafkaStore.Store.CheckTarget` | src/channels/kafka/kafka_store.cpp:451-463 | proceeds exactly for the stored revision with nothing in use, or a new name; each refusal has its own error |
| `KafkaStore.Store.MutateConnection` | src/channels/kafka/kafka_store.cpp:442-541 | secret ids stay exactly those that connections name; changes need the expected revision and no lease; failure changes nothing and, storage aside, has a reason in the request or the tables |
| `KafkaStore.Store.MutateChannel` | src/channels/kafka/kafka_store.cpp:442-541 | the same for channels, whose connections always exist |
| `KafkaStore.Store.Draft` | src/channels/kafka/kafka_store.cpp:666-693 | leaves the tables unchanged in every case, and gives the drafted bindings |
| `KafkaStore.Store.ResolveSecrets` | src/channels/kafka/kafka_store.cpp:639-653 | a named secret is never missing |
| `KafkaStore.Store.Acquire` | src/channels/kafka/kafka_store.cpp:604-632 | a lease records the stored revisions and raises both counters; a refusal changes nothing |
| `KafkaStore.Store.AcquireConnection` | src/channels/kafka/kafka_store.cpp:654-665 | a lease of the connection alone |
| `KafkaStore.Store.Release` | src/channels/kafka/kafka_store.cpp:633-638 | gives back exactly one lease; its guarded decrements are never skipped |
| `KafkaStore.SecretsReplaced` | src/channels/kafka/kafka_store.cpp:465-541 | after a change the secret ids are again exactly those named, each by one field of one connection |
| `KafkaStore.StoredCredentials` | src/channels/kafka/kafka_store.cpp:60-71 | a stored connection binds what its mechanism needs, nothing it has no use for, and the previous credentials that the request does not mention |
| `KafkaStore.BindsExactly` | src/channels/kafka/kafka_store.cpp:328-383 | after the request exactly the fields that it keeps, references or replaces are bound |
| `KafkaStore.LeaseAdded` | src/channels/kafka/kafka_store.cpp:628-631 | raising the counters keeps them equal to the numbers of live leases |
| `KafkaStore.LeaseDropped` | src/channels/kafka/kafka_store.cpp:633-638 | a live lease's counters are positive, and lowering them keeps the count |
| `KafkaPlugin.Plugin.OpenEnter` | src/channels/kafka/kafka_plugin.cpp:202-206 | refused once stopping |
| `KafkaPlugin.Plugin.OpenAcquire` | src/channels/kafka/kafka_plugin.cpp:211-213 | the call holds the new lease, or none |
| `KafkaPlugin.Plugin.OpenPublish` | src/channels/kafka/kafka_plugin.cpp:215-223 | a session takes the lease over, unless stopping began |
| `KafkaPlugin.Plugin.ReleaseHeld` | src/channels/kafka/kafka_plugin.cpp:231-251 | gives back the one lease that the call holds |
| `KafkaPlugin.Plugin.ReleaseEnter` | src/channels/kafka/kafka_plugin.cpp:239-248 | the call takes the lease over from the session, so it is released once |
| `KafkaPlugin.Plugin.TestEnter` | src/channels/kafka/kafka_control.cpp:182-190 | refused when stopping or with eight jobs running |
| `KafkaPlugin.Plugin.TestAcquire` | src/channels/kafka/kafka_control.cpp:191-214 | the starter holds the new lease, or the test fails with none; a draft channel's snapshot carries its name with revision 0 |
| `KafkaPlugin.Plugin.TestDraft` | src/channels/kafka/kafka_control.cpp:191-214 | a draft is tested without a lease, and ends the start exactly when it is refused |
| `KafkaPlugin.Plugin.TestLaunch` | src/channels/kafka/kafka_control.cpp:231-242 | the job takes the lease over, and never more than eight jobs run |
| `KafkaPlugin.Plugin.TestAbort` | src/channels/kafka/kafka_control.cpp:292-301 | a test that fails later gives its lease back |
| `KafkaPlugin.Plugin.JobRelease` | src/channels/kafka/kafka_control.cpp:270-276 | a finished worker gives back exactly its lease |
| `KafkaPlugin.Plugin.StopTests` | src/channels/kafka/kafka_control.cpp:330-346 | takes over the jobs that are left, beside those of other calls of `Stop`, and admits no new one |
| `KafkaPlugin.Plugin.StopReturns` | src/channels/kafka/kafka_plugin.cpp:180-190 | when the waits of a `Stop` are over, leases are left exactly if a job lingers that another waiting `Stop` took over; else every counter is zero |
| `KafkaPlugin.JobsHold` | src/channels/kafka/kafka_plugin.cpp:180-257 | with no session, call or starter, leases are held by running jobs alone, one each |
| `KafkaPlugin.SecondStopReturns` | src/channels/kafka/kafka_plugin.cpp:180-192 | a second `Stop` at the same time returns while a job still holds a lease |
| `KafkaPlugin.Plugin.ChangeConnection` | src/channels/kafka/kafka_store.cpp:442-458 | a change by another thread touches no leased connection |
| `KafkaPlugin.Plugin.ChangeChannel` | src/channels/kafka/kafka_store.cpp:442-458 | a change by another thread touches no leased channel |
| `SchemaEvaluator.Check` | src/channels/config/operator_data_contract_model.cpp:32-150 | with budget left the answer is settled: the same for every assumption about deeper levels; the budget never rises, lasts for the cost of everything, and pays at least the toll of what is accepted |
| `SchemaEvaluator.CheckRef` | src/channels/config/operator_data_contract_model.cpp:41-46 | a reference is followed in the schema first, then in the document, and fails when neither has it |
| `SchemaEvaluator.CheckKeywords` | src/channels/config/operator_data_contract_model.cpp:41-149 | the same for an object schema, keyword by keyword with early exits |
| `SchemaEvaluator.Tally` | src/channels/config/operator_data_contract_model.cpp:65-70 | counts the matching subschemas without stopping early |
| `SchemaEvaluator.MatchType` | src/channels/config/operator_data_contract_model.cpp:22-31 | the chain over type names finds exactly the names of the value's types |
| `SchemaRules.CombinatorCounts` | src/channels/config/operator_data_contract_model.cpp:71-74 | the counts decide `allOf`, `anyOf` and `oneOf` as their definitions by quantifiers do |
| `SchemaEvaluator.CheckIf` | src/channels/config/operator_data_contract_model.cpp:80-86 | the branch taken is the one of the settled condition |
| `SchemaEvaluator.CheckMembers` | src/channels/config/operator_data_contract_model.cpp:87-110 | `required`, then `properties` before `additionalProperties`, over all members |
| `SchemaEvaluator.CheckItems` | src/channels/config/operator_data_contract_model.cpp:111-137 | the array keywords, with the budget also spent on items and comparisons |
| `SchemaEvaluator.CheckUnique` | src/channels/config/operator_data_contract_model.cpp:130-135 | the comparisons of one item with those before it |
| `SchemaEvaluator.ValidateOperatorConfiguration` | src/channels/config/operator_data_contract_model.cpp:356-364 | accepted means satisfied, incompatible means violated; a check that costs less than the budget never reports the limit, and one whose toll is the budget or more never accepts |
| `SchemaKeywords.MembersMean` | src/channels/config/operator_data_contract_model.cpp:90-104 | each member named in `properties` must satisfy the schema named there, whatever `additionalProperties` is; each other member must satisfy `additionalProperties` when present |
| `SchemaKeywords.ValidateNamedMembers` | src/channels/config/operator_data_contract_model.cpp:90-104 | a configuration whose members are all named and satisfy their schemas is incompatible only because of another keyword, never of `additionalProperties` |
| `SchemaKeywords.ItemsMean` | src/channels/config/operator_data_contract_model.cpp:105-121 | an item is judged by the entry of `prefixItems` at its place if there is one, else by `items` |
| `SchemaKeywords.RefMeans` | src/channels/config/operator_data_contract_model.cpp:41-46 | a reference is looked up in the schema, and in the document only when the schema does not have it |
| `SchemaKeywords.CombinatorsMean` | src/channels/config/operator_data_contract_model.cpp:62-72 | `allOf` and `anyOf` hold when all, or some, of the listed schemas do |
| `SchemaKeywords.OneOfMeans` | src/channels/config/operator_data_contract_model.cpp:62-72 | `oneOf` holds when the schema at exactly one place does |
| `SchemaKeywords.ListsMean` | src/channels/config/operator_data_contract_model.cpp:57-91 | `enum` holds for a value equal to a listed one, `required` for an object with a member of each listed name |
| `SchemaKeywords.RangeMeans` | src/channels/config/operator_data_contract_model.cpp:142-148 | a number is within the bounds, strictly within the exclusive ones |
| `SchemaKeywords.BoundsMean` | src/channels/config/operator_data_contract_model.cpp:105-134 | sizes are within their bounds; items are all different when that is asked for |
| `SchemaKeywords.LookupFirst` | src/channels/config/operator_data_contract_model.cpp:92-95 | the value found is that of the first member of the name |
| `SchemaKeywords.SilentKeyword` | src/channels/config/operator_data_contract_model.cpp:41-149 | a keyword none of whose members is present demands nothing |
| `SchemaKeywords.ValidateUnique` | src/channels/config/operator_data_contract_model.cpp:105-130 | an array of 447 items or more is never accepted under `uniqueItems`: comparing them takes the whole budget |
| `SchemaMeaning.SettledIsMeant` | src/channels/config/operator_data_contract_model.cpp:32-150 | a settled answer is the answer of every meaning, also with cyclic references |
| `SchemaMeaning.DeeperAgrees` | src/channels/config/operator_data_contract_model.cpp:34-37 | raising the depth limit never changes a settled answer |
| `SchemaMeaning.RefFreeDecided` | src/channels/config/operator_data_contract_model.cpp:32-150 | a schema without references and nested within the limit is settled, whatever the rest of the documents hold |
| `SchemaMeaning.RefFreeMeant` | src/channels/config/operator_data_contract_model.cpp:32-150 | and every meaning agrees with its settled answer |
| `SchemaMeaning.SelfReferenceUnsettled` | src/channels/config/operator_data_contract_model.cpp:41-46 | for a schema that only refers to itself neither answer is settled, at any depth |
| `SchemaMeaning.ValidateSelfReference` | src/channels/config/operator_data_contract_model.cpp:356-364 | the evaluator answers every configuration under such a schema with the limit |
| `JsonContent.SameMeans` | src/channels/config/operator_data_contract_model.cpp:55-60 | two values are the same if and only if no path of names and positions tells them apart |
| `JsonContent.ValidateJsonNode` | src/channels/config/config_content_validator.cpp:34-57 | accepts exactly the values without repeated keys whose containers are at most 64 deep |
| `JsonContent.ValidateJson` | src/channels/config/config_content_validator.cpp:59-65 | the same for a whole document |
| `YamlHandler.SafeYamlHandler.BeginNode` | src/channels/config/config_content_validator.cpp:124-137 | what starting a node notes in the innermost frame |
| `YamlHandler.SafeYamlHandler.StartContainer` | src/channels/config/config_content_validator.cpp:156-161 | pushes a frame, or throws beyond 64 |
| `YamlHandler.SafeYamlHandler.EndContainer` | src/channels/config/config_content_validator.cpp:163-171 | pops the frame and completes the node in its parent |
| `YamlHandler.SafeYamlHandler.Handle` | src/channels/config/config_content_validator.cpp:67-175 | the events of a document, until one throws |
| `YamlHandler.NodeRun` | src/channels/config/config_content_validator.cpp:67-175 | for every tree in every state: throws exactly beyond the depth, restores the stack, and stays ok exactly when the tree is safe and fits |
| `YamlHandler.DocumentRun` | src/channels/config/config_content_validator.cpp:67-175 | a document throws exactly when nested beyond 64, else is ok exactly when safe, with the stack empty again |
| `YamlHandler.FreshMeans` | src/channels/config/config_content_validator.cpp:134 | inserting keys one by one finds exactly the repeated ones |
| `YamlHandler.TagsListed` | src/channels/config/config_content_validator.cpp:114-122 | the listed tags are exactly the safe ones: no tag of its own, or one of the standard types |
| `YamlHandler.ValidateYaml` | src/channels/config/config_content_validator.cpp:178-192 | accepts exactly one safe document within the depth |
| `Utf8.CharacterSound` | src/channels/config/config_channel_provider.cpp:45-62 | bytes that pass the checks are the encoding of a scalar value |
| `Utf8.CharacterComplete` | src/channels/config/config_channel_provider.cpp:45-62 | the encoding of every scalar value passes the checks and decodes to it |
| `Utf8.ScalarsUnique` | src/channels/config/config_channel_provider.cpp:43-65 | the scalar values are determined by the bytes |
| `Utf8.ValidUtf8` | src/channels/config/config_channel_provider.cpp:43-65 | accepts exactly the concatenated encodings of scalar values |
| `Base64.EncodeBase64` | src/channels/config/config_channel_control.cpp:164-181 | the loop over groups gives the encoding |
| `Base64.Vectors` | src/channels/config/config_channel_control.cpp:164-181 | published vectors of section 10 of RFC 4648 |
| `Base64.LastDigits` | src/channels/config/config_channel_control.cpp:164-181 | a vector with the last two digits of the alphabet |
| `Base64.DecodeBase64` | src/channels/config/config_channel_control.cpp:126-162 | accepts exactly the canonical encodings of contents within 8 MiB and gives the content; too large exactly beyond a limit |
| `Base64.GroupCanonical` | src/channels/config/config_channel_control.cpp:138-156 | a decoded group encodes to the same characters, so padding bits are zero |
| `Base64.DecodeOfEncode` | src/channels/config/config_channel_control.cpp:126-181 | decoding an encoding gives the content |
| `Base64.EncodeOfDecode` | src/channels/config/config_channel_control.cpp:126-181 | encoding what was decoded gives the text |
| `CaptureBudget.Frames` | src/channels/netadapter/af_xdp_backend.cpp:254-255 | the largest of 256, 512 and 1024 frames that the share covers |
| `CaptureBudget.ShareFits` | src/channels/netadapter/af_xdp_backend.cpp:252-253 | all shares with the shared envelope fit, unless the buffer is below 4 MiB, and then there is one input with less than 2 MiB |
| `CaptureBudget.OpenAfXdp` | src/channels/netadapter/af_xdp_backend.cpp:240-324 | each input gets its minimum, the sum with the shared envelope stays within the budget, and twice the frames would exceed the share |
| `CaptureBudget.OpenAfPacket` | src/channels/netadapter/af_packet_backend.cpp:158-192 | the same for whole blocks, of which one more each would exceed the share |
| `CaptureBudget.CreatePacketReader` | src/channels/netadapter/netadapter_plugin.cpp:285-293 | for every accepted configuration the budget comparison succeeds |
| `CaptureBudget.CreateXdpReader` | src/channels/netadapter/netadapter_plugin.cpp:285-293 | whatever opens passes the budget comparison |
| `ConfigPaging.ConfigChannelProvider.Publish` | src/channels/config/config_channel_provider.cpp:67-292 | refuses exactly the invalid requests; repeats exactly the content that is current, without change; else appends the next revision for the expected predecessor, or changes nothing |
| `ConfigPaging.Validate` | src/channels/config/config_channel_provider.cpp:67-85 | the checks accept exactly the valid requests |
| `ConfigPaging.ConfigChannelProvider.ListHistory` | src/channels/config/config_channel_provider.cpp:345-407 | one page of a history and the cursor after it |
| `ConfigPaging.ConfigChannelProvider.WalkHistory` | src/channels/config/config_channel_provider.cpp:345-407 | with publishing in between, every revision up to the first newest, once, descending |
| `ConfigPaging.ConfigChannelProvider.ListChannels` | src/channels/config/config_channel_provider.cpp:294-343 | refuses exactly invalid limits and cursors; the first names after the cursor in order; a cursor is given exactly when names are left, after a full page |
| `ConfigPaging.LessMeans` | src/channels/config/config_channel_provider.cpp:305-320 | the order of the pages: a proper prefix comes first, else the smaller character at the first difference |
| `ConfigPaging.ConfigChannelProvider.WalkChannels` | src/channels/config/config_channel_provider.cpp:294-343 | for any page limits and whatever others publish in between, the walk ends, having seen every channel of the start, and none twice |
| `ConfigPaging.NamesFinite` | src/channels/config/config_channel_provider.cpp:35-41 | every valid name is in one finite set, so names run out |
| `ConfigPaging.WalkEnds` | src/channels/config/config_channel_provider.cpp:294-343 | for any limits and traffic, a page is the last one if and only if its limit takes all the names that are left |
| `ConfigPaging.QuietWalkEnds` | src/channels/config/config_channel_provider.cpp:294-343 | when no name is added, a page is the last one if and only if the limits up to it take all the names |

## Left out

- Arrow builders and batches: a batch is a sequence of rows; the packet layer decoder is a yes-or-no outcome of the environment.
- librdkafka, brokers, OAuth, Kerberos and TLS: poll results, callbacks, commit outcomes and topology checks are arbitrary.
- Diagnostics, error texts and the code names beside the error numbers, counters of delivered bytes, queue peaks and binding documents: nothing depends on them.
- Versions and sizes of interface structures, null outputs, and absent batches.
- The parsing of configuration documents and of requests, and regular expressions: the model starts from parsed values.
- Topic names: the topic of a message is a flag of the environment.
- Exceptions other than the ones handled in the modelled functions.
- 64-bit overflow of sizes and counts held in memory, such as the sum of raw bytes; wire fields and poll sequences keep their width.
- The uniqueness of stream epochs: a writer joins a log with an epoch that no earlier writer used.
- The default entry that a lookup of an unknown source inserts into the reader's fact sequences: an absent entry counts as 0.
- The progress value and disposition that a tracker reports: only acceptance and the last sequence are kept.
- SQLite: tables are finite maps, transactions restore the value they began with, and reads of stored rows do not fail.
- SHA-256 digests of stored contents: documents are compared as values, and names derived by hashing are arbitrary functions.
- Encryption of secrets: the table keeps what each id encrypts, and decryption may fail as a whole.
- JSON normalization of semantics documents: a request carries its normalized document, or none when normalization refuses it.
- The derivation of output previews in `operator_contract_derivation.cpp`: an observed output is given with its dictionary and field map.
- Dataset identities, public views of definitions, and the dataset description of the connection store.
- `Load` after `Stop`: it starts the plugin anew and is not part of the runs.
- Schema keywords of the wrong JSON type: an ill-shaped list counts as empty, an ill-shaped number as 0 and an ill-shaped text as empty.
- JSON Pointer resolution: an arbitrary function of the document and the text; the field path that a failing check reports.
- Rounding of numbers to double precision in the schema evaluator: values are real numbers.
- Names with an embedded zero byte in `required`.
- The XML content validator, the parsing of JSON content and the scan of its nesting before that; of a publication, the content check, the UTF-8 checks, and the lengths of file name and note are one flag.
- PF_RING sizing, and everything that AF_PACKET and AF_XDP do beside the sizing.
- References of a target (`References`) and the exports of the registry: queries that only read.
- KafkaStore.Store.Acquire: the secrets handed to a client are resolved but not part of the lease.
