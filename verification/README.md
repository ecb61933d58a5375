# Verified models of the framework's message and context protocols

This project models the parts of the framework whose correctness rests on a protocol or an invariant
rather than on one method body, and proves what they keep.

- `EventStore`, `Handlers`, `CommandProcessing`, `CommandProcessor`: the append script of the Redis event store, the
  unit of work that turns its outcomes into events and a reply, and the command processor with its
  retries. The main results hold over every interleaving of any number of writers and every sequence of
  deliveries.
- `EventHandling`: the first-writer script and the event subscriber.
- `SlidingDoor`, `KafkaConsumer`: the doors that turn out-of-order completions into commit positions, the
  consumer that keeps one door per partition, and a partition's log under failures and restarts.
- `ServiceBus`, `ServiceBusRuns`: the recover loop and the receive loop of the queue and subscription consumers, over one
  queue with failing calls and crashes. Both consumers run the same code on different clients.
- `LogicalContext`, `LoggerScope`, `NestedContext`: three context structures with shared or linked objects.
- `Mailboxes`: the command loop and the run loops that are to run the messages of one key one at a time.
- `EntityGraph`, `Interception`, `BucketSort`, `ListWithout`, `EventStoreClient`, `LegacyCookie`: indirect
  forms against simple specifications.

Objects that the source updates in place are classes; each method is proved against a function of the old
state, and the properties are lemmas about those functions and about runs of them. A handler, another
writer, a broker or a crash acts through parameters: what it does between two steps is arbitrary.

## Where the code differs from its documentation

- `IEventStore.HandleEvent` promises the earlier commands of an event that was handled before
  (Src/iFramework/EventStore/IEventStore.cs:48-50). The code reads the stored saga result through its type
  code, and without a saga result that code is null and the look-up throws. The exact condition is proved.
- `NestedDiagnosticsLogicalContext.Push` promises that disposing returns the stack to the previous level
  (Src/iFramework.Plugins/IFramework.Log4Net/NestedDiagnosticsLogicalContext.cs:57-60). Disposal pops the top,
  whichever context that is. The exact condition is proved.
- `Mailbox` and `MailboxProcessor` are there to run the messages of one key one after another. A mailbox is
  dropped when its queue is empty, though its last message may still be running, and by its key, whichever
  mailbox that then finds. The exact condition and a failing run are proved.
- `LoggerScope.GetLogProperties` takes a dictionary to add to, but the outermost scope drops it.
- The door of the MSKafka client never keeps the commit callback its constructor takes
  (Src/iFramework.Plugins/IFramework.MessageQueue.Kafka/SlidingDoor.cs:27-35). It is modelled with the
  callback kept. The consumers use the four-argument door of Src/iFramework/MessageQueue/SlidingDoor.cs,
  which is modelled as it stands.

## Model

| member | source | states |
|---|---|---|
| `EventStore.RedisEventStore.RunAppendScript` | Src/iFramework.Plugins/IFramework.EventStore.Redis/EventStore.cs:49-70 | the script as one atomic step: dedup record first, then the version check, then record and batch; other aggregates untouched |
| `EventStore.RedisEventStore.AppendEvents` | Src/iFramework.Plugins/IFramework.EventStore.Redis/EventStore.cs:117-188 | the reply turned into success or one of three exceptions; a recorded payload replaces the caller's only when it is not blank |
| `EventStore.OnlyAcceptedAppendsChangeTheStore` | Src/iFramework.Plugins/IFramework.EventStore.Redis/EventStore.cs:49-70 | the store changes if and only if the append is accepted; a duplicate and each kind of conflict has exactly one cause and leaves the store as it was |
| `EventStore.DuplicatesGiveBackTheRecord` | Src/iFramework.Plugins/IFramework.EventStore.Redis/EventStore.cs:146-175 | a recorded command gets the recorded events back, and each recorded answer that holds a character other than white space, whatever it brings itself; any other leaves it its own |
| `EventStore.ExtendingAppend` | Src/iFramework.Plugins/IFramework.EventStore.Redis/EventStore.cs:58-66 | an append on the head, or on an empty stream, of a fresh batch records all that the command brought and adds the batch as the next version |
| `EventStore.RecordingAppend` | Src/iFramework.Plugins/IFramework.EventStore.Redis/EventStore.cs:54-57 | an append without an expected version records the command without aggregate events and leaves the stream alone |
| `EventStore.RefusedAppend` | Src/iFramework.Plugins/IFramework.EventStore.Redis/EventStore.cs:58-68 | an append on another version than the head's changes nothing, and is a duplicate root if it expected version 0 and a conflict otherwise |
| `EventStore.AcceptedBatchIsAppendedIffFresh` | Src/iFramework.Plugins/IFramework.EventStore.Redis/EventStore.cs:60-65 | an accepted batch lands behind all earlier ones if and only if it is not already a member of the sorted set |
| `EventStore.KnownBatchMoves` | Src/iFramework.Plugins/IFramework.EventStore.Redis/EventStore.cs:60-65 | an accepted batch that is a member already leaves its old place for the new version at the end, and the batches around it keep their places |
| `EventStore.RecordsNeverChange` | Src/iFramework.Plugins/IFramework.EventStore.Redis/EventStore.cs:51-56 | over every interleaving a command's record is written once and never changes |
| `EventStore.RecordedEventsAreReadBack` | Src/iFramework.Plugins/IFramework.EventStore.Redis/EventStore.cs:190-219 | whatever follows an accepted append, reading by its command id returns its aggregate events and then its application events |
| `EventStore.RunIsSound` | Src/iFramework.Plugins/IFramework.EventStore.Redis/EventStore.cs:49-70 | over every interleaving the scores are contiguous from the first accepted append, and every record and stream entry was put there by a request of the run |
| `EventStore.StreamIsAcceptedBatches` | Src/iFramework.Plugins/IFramework.EventStore.Redis/EventStore.cs:60-65 | the stream is the concatenation of the accepted batches in version order |
| `EventStore.NoLostUpdate` | Src/iFramework.Plugins/IFramework.EventStore.Redis/EventStore.cs:58-68 | of two accepted stream-extending commits the later one was built on a strictly higher version |
| `EventStore.ExactlyOneCommitPerVersion` | Src/iFramework.Plugins/IFramework.EventStore.Redis/EventStore.cs:58-68 | of all commits built on the current head exactly one, the first unrecorded one, extends the stream |
| `EventStore.ReadFromVersionSkipsEarlierBatches` | Src/iFramework.Plugins/IFramework.EventStore.Redis/EventStore.cs:102-115 | reading from a reached version skips exactly the batches before it and returns the rest in order |
| `EventStore.ReadRangeIsTheBatchesBetween` | Src/iFramework.Plugins/IFramework.EventStore.Redis/EventStore.cs:102-115 | with both bounds given, both inclusive, reading returns exactly the batches between them, in order |
| `EventStore.ConcatJoins` | Src/iFramework.Plugins/IFramework.EventStore.Redis/EventStore.cs:102-115 | the batches read are joined in their sequence |
| `CommandProcessing.EventBus.Publish` | Src/iFramework/Event/Impl/EventBus.cs:30-33 | publishing appends to the event queue and touches nothing else on the bus |
| `CommandProcessing.UnitOfWork.CommitAsync` | Src/iFramework.Plugins/IFramework.Infrastructure.EventSourcing/UnitOfWork.cs:54-124 | store, cache, repositories, bus and reply after each of the outcomes: committed, conflict, duplicate root, duplicate command, more than one root |
| `CommandProcessing.CommitAppendsTheMovedRoot` | Src/iFramework.Plugins/IFramework.Infrastructure.EventSourcing/UnitOfWork.cs:56-87 | if one entry of any repository was added, or was loaded and moved, and raised events, and all others are deleted or have not moved, then at the head the stream grows by exactly these events as the next version, the bus by the same, the record holds the answers and the cache the root |
| `CommandProcessing.CommitWithoutChange` | Src/iFramework.Plugins/IFramework.Infrastructure.EventSourcing/Repositories/EventSourcingEntityEntry.cs:15-37 | if all entries are deleted or have not moved, or the one that did raised no event, the command is recorded and stream, bus and cache stay as they were |
| `CommandProcessing.CommitRefusesTheStaleRoot` | Src/iFramework.Plugins/IFramework.Infrastructure.EventSourcing/UnitOfWork.cs:88-104 | off the head nothing is stored or published: a loaded root is a conflict that resets every repository and evicts the root, an added one is answered to caller and saga |
| `CommandProcessing.CommitReplaysTheRecord` | Src/iFramework.Plugins/IFramework.Infrastructure.EventSourcing/UnitOfWork.cs:105-123 | a recorded command stores nothing; the bus then holds the recorded aggregate events and the recorded application events, with the recorded answers where they hold more than white space |
| `CommandProcessing.CommitRefusesTwoRoots` | Src/iFramework.Plugins/IFramework.Infrastructure.EventSourcing/UnitOfWork.cs:56-66 | two entries that moved or were added, wherever they are, make the commit fail with nothing changed |
| `CommandProcessing.UnitOfWork.ReplayRecorded` | Src/iFramework.Plugins/IFramework.Infrastructure.EventSourcing/UnitOfWork.cs:105-123 | a duplicate command clears the bus, then publishes the recorded aggregate events and after them the application events |
| `CommandProcessing.UnitOfWork.Rollback` | Src/iFramework.Plugins/IFramework.Infrastructure.EventSourcing/UnitOfWork.cs:126-129 | every repository is reset |
| `CommandProcessor.RunHandler` | Src/iFramework.Plugins/IFramework.Infrastructure.EventSourcing/EventSourcingCommandProcessor.cs:91-131 | each attempt starts from a null reply and a cleared bus; a domain exception publishes its event, any other ends the saga |
| `CommandProcessor.ConsumeMessage` | Src/iFramework.Plugins/IFramework.Infrastructure.EventSourcing/EventSourcingCommandProcessor.cs:42-180 | one delivery with up to 51 attempts under interference by other writers: the store, the cache and what is sent meet the specification, other aggregates stay, and the offset is committed however it ends |
| `CommandProcessor.ProcessAsync` | Src/iFramework/Infrastructure/ConcurrencyProcessor.cs:42-61 | the retry loop: the body runs again after each concurrency conflict, until it completes, fails otherwise, or has used up its retries |
| `CommandProcessor.DeliveryCommitsAfterConflicts` | Src/iFramework.Plugins/IFramework.Infrastructure.EventSourcing/EventSourcingCommandProcessor.cs:89-158 | when the first k attempts are overtaken, for any k up to fifty, and the next is not, the delivery commits, and it records and sends what that attempt's handler made: its answers, a domain exception as the reply with its event behind the handler's, or any other exception's message as the reply and its error as the saga's result |
| `CommandProcessor.DeliveryGivesUpAfterFiftyRetries` | Src/iFramework/Infrastructure/ConcurrencyProcessor.cs:42-61 | when all fifty-one attempts are overtaken nothing is stored or sent |
| `CommandProcessor.MissingHandlerIsAnswered` | Src/iFramework.Plugins/IFramework.Infrastructure.EventSourcing/EventSourcingCommandProcessor.cs:74-84 | a command without a handler is answered if it asks for a reply, and nothing is stored |
| `CommandProcessor.DeliveriesKeepTheStream` | Src/iFramework.Plugins/IFramework.Infrastructure.EventSourcing/EventSourcingCommandProcessor.cs:89-159 | over any sequence of deliveries, retries and redeliveries the stream is the accepted batches with contiguous scores, and a command extends it at most once |
| `CommandProcessor.CommittedDelivery` | Src/iFramework.Plugins/IFramework.Infrastructure.EventSourcing/UnitOfWork.cs:71-87 | a committed delivery sent exactly what it recorded: its application events, then its aggregate events, its saga result and its reply |
| `CommandProcessor.RedeliveryReplaysRecord` | Src/iFramework.Plugins/IFramework.Infrastructure.EventSourcing/UnitOfWork.cs:56-123 | a delivery of a recorded command leaves the store alone; it completes if and only if its handler run changed one root at most, and then sends the recorded events, which are those that reading by command id returns; otherwise it sends nothing |
| `CommandProcessor.RedeliveryRepeatsTheCommit` | Src/iFramework.Plugins/IFramework.Infrastructure.EventSourcing/EventSourcingCommandProcessor.cs:89-159 | once committed, after any deliveries of any commands one more delivery that changes one root at most sends the same multiset of events, and the same saga result and reply when non-blank ones were recorded; one that changes more sends nothing |
| `CommandProcessor.ReplyIsRepeatedIffRecorded` | Src/iFramework.Plugins/IFramework.EventStore.Redis/EventStore.cs:149-154 | all redeliveries of a recorded command repeat the recorded reply, whatever their handler runs replied, if and only if a non-blank one was recorded or none is asked for |
| `CommandProcessor.SagaResultIsRepeatedIffRecorded` | Src/iFramework.Plugins/IFramework.EventStore.Redis/EventStore.cs:156-161 | all redeliveries repeat the recorded saga result if and only if a non-blank one was recorded or there is no saga to answer |
| `CommandProcessor.DuplicateRootIsAnswered` | Src/iFramework.Plugins/IFramework.Infrastructure.EventSourcing/UnitOfWork.cs:97-104 | adding an existing aggregate, at whichever attempt, records nothing, publishes none of the handler's events and answers caller and saga alike |
| `CommandProcessor.GivingUpLeavesNoTrace` | Src/iFramework/Infrastructure/ConcurrencyProcessor.cs:42-61 | a delivery that runs out of retries, or touched several roots, sends nothing and stores nothing |
| `CommandProcessor.RunsAreStamped` | Src/iFramework.Plugins/IFramework.EntityFrameworkCore/Domain/VersionedAggregateRoot.cs:10-34 | in any run whose extending requests carry events of the next version, the stream's batches are non-empty and carry the version they are stored under, from version 1 on |
| `CommandProcessor.LoadReachesHead` | Src/iFramework.Plugins/IFramework.Infrastructure.EventSourcing/Repositories/EventSourcingRepository.cs:69-96 | without a cached copy, a load from any snapshot not ahead of the stream ends at the stream's head version |
| `CommandProcessor.LoadAfterAnyRunReachesHead` | Src/iFramework.Plugins/IFramework.Infrastructure.EventSourcing/Repositories/EventSourcingRepository.cs:69-96 | after any such run a load without a cached copy ends at the head |
| `CommandProcessor.UndisturbedRetryCommits` | Src/iFramework.Plugins/IFramework.Infrastructure.EventSourcing/UnitOfWork.cs:88-96 | a conflict evicts the stale root, so a retry that no other writer overtakes loads the head and commits |
| `CommandProcessor.CommitLeavesTheCacheAtTheHead` | Src/iFramework.Plugins/IFramework.Infrastructure.EventSourcing/UnitOfWork.cs:82-86 | after a commit the next load takes the root from the cache at the new head; other cached roots stay |
| `EventHandling.HandledEvents.HandleEvent` | Src/iFramework.Plugins/IFramework.EventStore.Redis/EventStore.cs:221-268 | only the first writer stores; later callers get the stored messages, and a record without a saga result makes the type look-up throw |
| `EventHandling.FirstWriterWins` | Src/iFramework.Plugins/IFramework.EventStore.Redis/EventStore.cs:89-97 | over any interleaving a later call gets the first call's commands and events and stores nothing; it returns if and only if the first call stored a saga result |
| `EventHandling.SecondHandlingWithoutSagaThrows` | Src/iFramework/Message/Impl/MessageTypeProvider.cs:51-54 | the concrete event whose second handling fails on the null type code |
| `EventHandling.ConsumeMessage` | Src/iFramework.Plugins/IFramework.Infrastructure.EventSourcing/EventSourcingEventSubscriber.cs:45-187 | one delivery to all handler types, each on its own bus, with any calls of other deliveries before each of its own; a failing look-up stops it, and the offset is committed however it ends |
| `EventHandling.FirstDeliverySendsWhatWasMade` | Src/iFramework.Plugins/IFramework.Infrastructure.EventSourcing/EventSourcingEventSubscriber.cs:85-150 | a delivery that reaches a handler type's field first sends and stores exactly what the handler made: its commands and events; after a domain exception no command and only the exception's event; after any other exception neither; with the saga's reply in each case |
| `EventHandling.LaterDeliverySendsWhatIsStored` | Src/iFramework.Plugins/IFramework.Infrastructure.EventSourcing/EventSourcingEventSubscriber.cs:125-176 | a delivery that finds a stored field sends the stored commands and events and the stored saga result, if that holds more than white space; without a stored saga result it stops there |
| `EventHandling.SentIsStored` | Src/iFramework.Plugins/IFramework.Infrastructure.EventSourcing/EventSourcingEventSubscriber.cs:125-150 | what is sent for a handler type is what the store holds for it right after its own call |
| `EventHandling.AllDeliveriesSendTheSame` | Src/iFramework.Plugins/IFramework.Infrastructure.EventSourcing/EventSourcingEventSubscriber.cs:125-174 | any two deliveries of an event, one after the other or with their calls interleaved, that send anything for a handler type send identical commands and events for it |
| `EventHandling.RedeliveryStopsWithoutSagaResult` | Src/iFramework.Plugins/IFramework.Infrastructure.EventSourcing/EventSourcingEventSubscriber.cs:125-177 | a redelivery changes no stored field and serves exactly the handler types before the first that stored no saga result, whatever others do meanwhile; it serves all of them if and only if each stored one |
| `SlidingDoors.TryRemoveBeforeKey` | Src/iFramework/Infrastructure/Utility.cs:86-108 | the message with the key is returned and it and everything before it are dropped; without the key nothing changes |
| `SlidingDoors.SlidingDoor.AddOffset` | Src/iFramework/MessageQueue/SlidingDoor.cs:44-54 | batch mode adds the offset; commit-per-message mode ignores it |
| `SlidingDoors.SlidingDoor.RemoveOffset` | Src/iFramework/MessageQueue/SlidingDoor.cs:56-89 | marks, kept messages and commit after a removal in both modes, with the committed message being the one at the consumed offset |
| `SlidingDoors.RemoveKeepsInv` | Src/iFramework/MessageQueue/SlidingDoor.cs:65-87 | a removal keeps the committed mark below every unfinished offset and at or above every finished prefix, and never meets a duplicate key |
| `SlidingDoors.CommitsAreSafe` | Src/iFramework/MessageQueue/SlidingDoor.cs:65-87 | for increasing adds and removals in any order: commits strictly increase, lie below every unfinished offset, and end at the last added offset |
| `SlidingDoors.FirstRemovalCoversIff` | Src/iFramework/MessageQueue/SlidingDoor.cs:67-86 | removing the first unfinished offset leaves every finished offset covered by a commit if and only if none is left unfinished or the offset before the next unfinished one was added |
| `SlidingDoors.OtherRemovalsCoverTheSame` | Src/iFramework/MessageQueue/SlidingDoor.cs:67-86 | any other removal covers no more and no less than before |
| `SlidingDoors.FinishedAreCommittedIff` | Src/iFramework/MessageQueue/SlidingDoor.cs:67-86 | in any run all finished offsets are covered by a commit if and only if the last removal of a first unfinished offset met no gap |
| `SlidingDoors.CoveredThroughoutIff` | Src/iFramework/MessageQueue/SlidingDoor.cs:67-86 | they are covered at every point of a run if and only if no removal of it met a gap |
| `SlidingDoors.GapDelaysCommit` | Src/iFramework/MessageQueue/SlidingDoor.cs:79-86 | a concrete gap that leaves a finished message uncommitted |
| `SlidingDoors.ConsecutiveOffsetsCommitAtOnce` | Src/iFramework/MessageQueue/SlidingDoor.cs:79-86 | without gaps every finished offset is covered by a commit at once |
| `SlidingDoors.KafkaSlidingDoor.RemoveOffset` | Src/iFramework.Plugins/IFramework.MessageQueue.Kafka/SlidingDoor.cs:46-78 | the older door in both modes |
| `SlidingDoors.DoorsAgree` | Src/iFramework.Plugins/IFramework.MessageQueue.Kafka/SlidingDoor.cs:37-78 | on the same calls both doors keep the same marks; the newer one commits exactly the older one's commits that name a message |
| `KafkaConsumer.DoorKeyInjective` | Src/iFramework/MessageQueue/SlidingDoor.cs:23-26 | different partitions never share a door key |
| `KafkaConsumer.MessageConsumer.AddMessageOffset` | Src/iFramework.Plugins/IFramework.MessageQueue.Client.Abstracts/MessageConsumer.cs:124-132 | the partition's door is made in the configured mode when missing and gets the offset; other doors stay |
| `KafkaConsumer.MessageConsumer.FinishConsumingMessage` | Src/iFramework.Plugins/IFramework.MessageQueue.Client.Abstracts/MessageConsumer.cs:137-145 | the removal on the message's door with the position it commits in either mode; without a door it throws |
| `KafkaConsumer.MessageConsumer.ConsumerOnMessage` | Src/iFramework.Plugins/IFramework.MessageQueueCore.ConfluentKafka/KafkaConsumer.cs:82-109 | add, call back, and finish at once when the callback failed and the message has a value; the position committed is the offset plus one |
| `KafkaConsumer.EachMessageIsCommitted` | Src/iFramework.Plugins/IFramework.MessageQueue.Client.Abstracts/MessageConsumer.cs:124-145 | on a consumer that commits every message a door stays as it was made, and a message that is finished, or fails with a value, moves the position behind itself at once |
| `KafkaConsumer.MessageConsumer.Stop` | Src/iFramework.Plugins/IFramework.MessageQueue.Client.Abstracts/MessageConsumer.cs:58-70 | stopping forgets all doors |
| `KafkaConsumer.MessageConsumer.PendingMessageCount` | Src/iFramework.Plugins/IFramework.MessageQueue.Client.Abstracts/MessageConsumer.cs:113-116 | the sum compared with the threshold counts every door once |
| `KafkaConsumer.StepsAreTheConsumersCalls` | Src/iFramework.Plugins/IFramework.MessageQueueCore.ConfluentKafka/KafkaConsumer.cs:82-109 | a poll or a completion of the partition's run does to door and position what the consumer's own calls do |
| `KafkaConsumer.StepKeepsInv` | Src/iFramework.Plugins/IFramework.MessageQueueCore.ConfluentKafka/KafkaConsumer.cs:82-109 | every produce, poll, completion and restart keeps everything below the committed position settled and never moves it back |
| `KafkaConsumer.NoMessageIsLost` | Src/iFramework.Plugins/IFramework.MessageQueueCore.ConfluentKafka/KafkaConsumer.cs:82-109 | over any run with failures, lost commits, cancellations and restarts, every message below the committed position was finished or failed on the spot, and the position never moves backwards |
| `KafkaConsumer.UnsettledMessagesAreDeliveredAgain` | Src/iFramework.Plugins/IFramework.MessageQueue.Client.Abstracts/MessageConsumer.cs:58-70 | after a restart every unsettled message waits to be polled; once nothing waits, each is unfinished in the door |
| `KafkaConsumer.CaughtUp` | Src/iFramework.Plugins/IFramework.MessageQueueCore.ConfluentKafka/KafkaConsumer.cs:103-109 | when everything is polled and finished, the last commit is the last message, and if it arrived nothing is delivered again |
| `KafkaConsumer.CompletingTheLastCommitsAll` | Src/iFramework.Plugins/IFramework.MessageQueueCore.ConfluentKafka/KafkaConsumer.cs:82-109 | completing the only unfinished message moves the committed position behind everything polled |
| `KafkaConsumer.FailedMessageIsFinished` | Src/iFramework.Plugins/IFramework.MessageQueueCore.ConfluentKafka/KafkaConsumer.cs:95-100 | a message with a value whose handler fails leaves the door at once, and if nothing else was unfinished the committed position moves behind it |
| `KafkaConsumer.NoPartitionLosesMessages` | Src/iFramework.Plugins/IFramework.MessageQueue.Client.Abstracts/MessageConsumer.cs:80-111 | the same for every partition of a consumer at once, whatever its other partitions do |
| `KafkaConsumer.LoadIsBounded` | Src/iFramework.Plugins/IFramework.MessageQueue.Client.Abstracts/MessageConsumer.cs:113-121 | the full-load check keeps the unfinished messages of all doors together at one above the threshold at most |
| `KafkaConsumer.LoadIsTheSum` | Src/iFramework.Plugins/IFramework.MessageQueue.Client.Abstracts/MessageConsumer.cs:113-116 | the load of the runs is the sum the consumer computes over its doors |
| `KafkaConsumer.CancelledMessageHoldsThePosition` | Src/iFramework.Plugins/IFramework.MessageQueueCore.ConfluentKafka/KafkaConsumer.cs:90-100 | a message whose handler was cancelled, or failed on a null value, holds the committed position until a restart |
| `KafkaConsumer.UntakenMessageIsPolledAgain` | Src/iFramework.Plugins/IFramework.MessageQueueCore.ConfluentKafka/KafkaConsumer.cs:90-100 | a message polled for the first time whose handler did not take it holds the position until a restart, which polls it again |
| `ServiceBus.RecoverDeferred` | Src/iFramework.Plugins/IFramework.MessageQueue.ServiceBus/QueueConsumer.cs:52-93 | under arrivals and completions between peeks, by handlers of this run or an earlier one, the loop ends and hands over exactly the run of deferred messages from the lowest number, each once and in order, without those completed before their turn; the queue's phases and, but for completions, its deferred messages stay |
| `ServiceBus.RecoversAllIff` | Src/iFramework.Plugins/IFramework.MessageQueue.ServiceBus/QueueConsumer.cs:68-77 | recovery hands over every deferred message if and only if none stands behind one that is not deferred |
| `ServiceBus.ReceiveAndDefer` | Src/iFramework.Plugins/IFramework.MessageQueue.ServiceBus/SubscriptionConsumer.cs:101-112 | one turn of the receive loop, with others acting between any two of its calls, defers and hands over its batch in order, behind the messages already deferred |
| `ServiceBus.ReceivedAreTheFirstActive` | Src/iFramework.Plugins/IFramework.MessageQueue.ServiceBus/QueueConsumer.cs:95-112 | what a turn receives are the first active messages of the queue, one being left only behind a full batch, and only their state changes |
| `ServiceBus.Remaining` | Src/iFramework.Plugins/IFramework.MessageQueue.ServiceBus/QueueConsumer.cs:52-93 | completing takes exactly the completed deferred messages out of a queue and the completed numbers out of a run of numbers |
| `ServiceBus.ReceiveQueueMessages` | Src/iFramework.Plugins/IFramework.MessageQueue.ServiceBus/QueueConsumer.cs:49-127 | both loops composed, as often as the consumer is started: all messages deferred before and not completed first are handed over first, every message once and in order of its number, and after any turn the deferred messages are exactly those handed over and not completed |
| `ServiceBusRuns.StepKeepsFacts` | Src/iFramework.Plugins/IFramework.MessageQueue.ServiceBus/QueueConsumer.cs:52-124 | every step, failures and expiring locks included, keeps a message deferred in the queue exactly from its deferral to its completion |
| `ServiceBusRuns.StepKeepsInv` | Src/iFramework.Plugins/IFramework.MessageQueue.ServiceBus/QueueConsumer.cs:52-124 | every step that does not fail, between `Defer` and the callback too, keeps deferred, locked and active messages in that order, and every deferred message handed over since the restart up to where the consumer stands |
| `ServiceBusRuns.RestartRedeliversEveryDeferredMessage` | Src/iFramework.Plugins/IFramework.MessageQueue.ServiceBus/QueueConsumer.cs:52-124 | without failing calls, a crash at any point of any run leaves a queue whose recovery hands over every deferred, uncompleted message; and whenever recovery is over each has been handed over since the restart, except the one whose callback comes next |
| `ServiceBusRuns.CrashRecoversAllIff` | Src/iFramework.Plugins/IFramework.MessageQueue.ServiceBus/QueueConsumer.cs:105-123 | in any run, with any failing calls, a crash recovers every deferred, uncompleted message if and only if the queue then holds no deferred message behind one that is not |
| `ServiceBusRuns.FailedRecoveryHandsOverAllIff` | Src/iFramework.Plugins/IFramework.MessageQueue.ServiceBus/QueueConsumer.cs:58-93 | in any run whose receive loop does not fail, once recovery is over, every deferred, uncompleted message has been handed over since the restart, but for the one whose callback comes next, if and only if all messages collected for a failed callback of the recover loop are completed |
| `ServiceBusRuns.FailedDeferHidesLaterMessages` | Src/iFramework.Plugins/IFramework.MessageQueue.ServiceBus/QueueConsumer.cs:105-123 | the concrete run in which a failing defer makes a later handed-over message unrecoverable |
| `LogicalContext.MappedDiagnosticsContext.GetLogicalThreadDictionary` | Src/iFramework.Plugins/IFramework.Log4Net/MappedDiagnosticsLogicalContext.cs:27-43 | a write access gets a fresh clone in the flow's own slot; a read access changes nothing |
| `LogicalContext.MappedDiagnosticsContext.Set` | Src/iFramework.Plugins/IFramework.Log4Net/MappedDiagnosticsLogicalContext.cs:118-121 | a write changes the view of its own flow only and no dictionary that existed before |
| `LogicalContext.MappedDiagnosticsContext.Clear` | Src/iFramework.Plugins/IFramework.Log4Net/MappedDiagnosticsLogicalContext.cs:157-163 | both ways of clearing empty the flow's view and leave shared dictionaries alone |
| `LogicalContext.ItemRemover.Dispose` | Src/iFramework.Plugins/IFramework.Log4Net/MappedDiagnosticsLogicalContext.cs:188-193 | only the first disposal removes the item, in the disposing flow |
| `LogicalContext.Execute` | Src/iFramework.Plugins/IFramework.Log4Net/MappedDiagnosticsLogicalContext.cs:27-43 | from any shared start, any interleaving over any tree of forked flows gives each flow what the functional account of that flow alone says, and changes no earlier dictionary |
| `LogicalContext.OthersAreInvisible` | Src/iFramework.Plugins/IFramework.Log4Net/MappedDiagnosticsLogicalContext.cs:108-163 | operations of other flows never change what a flow sees |
| `LogicalContext.ForkSeesTheParentsPast` | Src/iFramework.Plugins/IFramework.Log4Net/MappedDiagnosticsLogicalContext.cs:165-173 | a forked flow keeps what its parent saw at the fork, whatever happens later |
| `LoggerScopes.LoggerScope.constructor` | Src/iFramework.Plugins/IFramework.Logging.Abastracts/LoggerScope.cs:16-24 | a new scope becomes the current one, linked to the one before |
| `LoggerScopes.LoggerScope.Dispose` | Src/iFramework.Plugins/IFramework.Logging.Abastracts/LoggerScope.cs:28-41 | the chain stays exactly the scopes with no disposed scope on their path, whatever the order of disposal |
| `LoggerScopes.RestOfChain` | Src/iFramework.Plugins/IFramework.Logging.Abastracts/LoggerScope.cs:33-40 | behind a scope of a chain stand exactly the members whose own chain avoids it |
| `LoggerScopes.LoggerScope.GetLogProperties` | Src/iFramework.Plugins/IFramework.Logging.Abastracts/LoggerScope.cs:43-73 | the properties are the pairs of the whole chain folded from the outermost scope in; the argument is ignored |
| `LoggerScopes.ScopeAddsItsState` | Src/iFramework.Plugins/IFramework.Logging.Abastracts/LoggerScope.cs:43-73 | to the properties of the scopes around it a scope with a null state adds nothing, one with pairs its pairs in order, and any other its state as a further value of the `Scope` list |
| `LoggerScopes.PairIsAdded` | Src/iFramework.Plugins/IFramework.Logging.Abastracts/LoggerScope.cs:54-66 | a pair overwrites its key, or extends the list, which is made when missing, if its key is `Scope` |
| `LoggerScopes.InnerKeysWinAndScopesAccumulate` | Src/iFramework.Plugins/IFramework.Logging.Abastracts/LoggerScope.cs:54-70 | an ordinary key has its innermost value, and `Scope` lists all its values from the outermost scope in |
| `LoggerScopes.Execute` | Src/iFramework.Plugins/IFramework.Logging.Abastracts/LoggerScope.cs:16-41 | after opening scopes and disposing them in any order and any number of times, the chain is exactly the set of live scopes |
| `NestedContexts.NestedDiagnosticsContext.Push` | Src/iFramework.Plugins/IFramework.Log4Net/NestedDiagnosticsLogicalContext.cs:61-66 | the new context is on top with a frame level one above the old depth |
| `NestedContexts.NestedDiagnosticsContext.Dispose` | Src/iFramework.Plugins/IFramework.Log4Net/NestedDiagnosticsLogicalContext.cs:223-230 | the first disposal pops the top of the stack, later ones do nothing |
| `NestedContexts.NestedDiagnosticsContext.GetAllObjects` | Src/iFramework.Plugins/IFramework.Log4Net/NestedDiagnosticsLogicalContext.cs:164-178 | an array of the top's frame level is filled exactly, top first |
| `NestedContexts.NestedDiagnosticsContext.GetAllMessages` | Src/iFramework.Plugins/IFramework.Log4Net/NestedDiagnosticsLogicalContext.cs:155-158 | the values from bottom to top |
| `NestedContexts.DepthCountsUndisposed` | Src/iFramework.Plugins/IFramework.Log4Net/NestedDiagnosticsLogicalContext.cs:223-230 | in any run of pushes and disposals the depth is the number of undisposed contexts |
| `NestedContexts.DisposalRemovesItselfIffOnTop` | Src/iFramework.Plugins/IFramework.Log4Net/NestedDiagnosticsLogicalContext.cs:223-230 | a disposal keeps the stack equal to the undisposed contexts if and only if the context is on top |
| `NestedContexts.UndisposedThroughoutIff` | Src/iFramework.Plugins/IFramework.Log4Net/NestedDiagnosticsLogicalContext.cs:223-230 | at every point of a run the stack is the undisposed contexts if and only if each first disposal is of the context on top |
| `NestedContexts.OuterFirstLeavesTheOuterOne` | Src/iFramework.Plugins/IFramework.Log4Net/NestedDiagnosticsLogicalContext.cs:223-230 | disposing the outer context first leaves it on the stack instead of the inner one |
| `NestedContexts.Execute` | Src/iFramework.Plugins/IFramework.Log4Net/NestedDiagnosticsLogicalContext.cs:201-230 | the objects follow that account in any run, and the top's frame level is the depth |
| `EntityGraph.WalkIsShort` | Src/iFramework.Plugins/IFramework.EntityFrameworkCore/MsDbContext.cs:255-262 | in an acyclic graph a walk is no longer than the graph, which is why the recursion ends |
| `EntityGraph.ModifiedIffDirtyIsReachable` | Src/iFramework.Plugins/IFramework.EntityFrameworkCore/MsDbContext.cs:262-296 | the dirty check is true exactly when an entry dirty by itself is reachable through the followed links; the flags govern the first entry only |
| `EntityGraph.ModifiedByItself` | Src/iFramework.Plugins/IFramework.EntityFrameworkCore/MsDbContext.cs:268-280 | a modified entry counts, and an unchanged one with a modified reference to no aggregate root or a modified collection holding an item that is none, each if its flag is on |
| `EntityGraph.ModifiedByALink` | Src/iFramework.Plugins/IFramework.EntityFrameworkCore/MsDbContext.cs:283-291 | a modified target of a reference makes the entry count, and a modified item once any collection is loaded |
| `EntityGraph.NothingMakesItModified` | Src/iFramework.Plugins/IFramework.EntityFrameworkCore/MsDbContext.cs:262-296 | an entry with nothing of its own and no link to anything but aggregate roots does not count |
| `EntityGraph.UnloadedItemsAreFollowed` | Src/iFramework.Plugins/IFramework.EntityFrameworkCore/MsDbContext.cs:286-291 | once any collection of an entry is loaded, a modified item of one that is not loaded makes the entry modified |
| `EntityGraph.NothingLoadedNothingFollowed` | Src/iFramework.Plugins/IFramework.EntityFrameworkCore/MsDbContext.cs:286-291 | without a loaded collection only the entry's own collections decide |
| `EntityGraph.FindsWhatIsReachedThroughLoaded` | Src/iFramework.Plugins/IFramework.EntityFrameworkCore/MsDbContext.cs:262-296 | the check finds whatever is dirty through references and loaded collections, and nothing else as long as every followed item stands in a loaded collection |
| `EntityGraph.UnloadedItemMakesItModified` | Src/iFramework.Plugins/IFramework.EntityFrameworkCore/MsDbContext.cs:262-296 | the concrete entry that counts as modified though nothing dirty is reached through its loaded collection |
| `Interception.OrderByIsAStableSort` | Src/iFramework.Plugins/IFramework.DependencyInjection.Autofac/DefaultInterceptor.cs:62-70 | the attributes are sorted by order and those of equal order keep their sequence |
| `Interception.CollectedAttributes` | Src/iFramework.Plugins/IFramework.DependencyInjection.Unity/DefaultInterceptor.cs:55-66 | nothing collected is lost or invented, and the last attribute has the highest order |
| `Interception.ContainersCollectAlike` | Src/iFramework.Plugins/IFramework.DependencyInjection.Autofac/DefaultInterceptor.cs:62-70 | when the target brings no attributes of its own, both containers collect the same list |
| `Interception.AutofacCollects` | Src/iFramework.Plugins/IFramework.DependencyInjection.Autofac/DefaultInterceptor.cs:62-70 | an attribute is collected if and only if it is one of the method, its type, the target method or the target's type, each once, by ascending order, and equal orders in that sequence |
| `Interception.UnityCollects` | Src/iFramework.Plugins/IFramework.DependencyInjection.Unity/DefaultInterceptor.cs:55-66 | likewise for the attributes of the method and of its type |
| `Interception.AutofacInterceptValue` | Src/iFramework.Plugins/IFramework.DependencyInjection.Autofac/DefaultInterceptor.cs:162-176 | the loop over functions builds the recursive onion around proceeding and reading the return value, which its result replaces |
| `Interception.AutofacInterceptVoid` | Src/iFramework.Plugins/IFramework.DependencyInjection.Autofac/DefaultInterceptor.cs:178-193 | the loop over actions builds the onion around proceeding |
| `Interception.AutofacInterceptAsync` | Src/iFramework.Plugins/IFramework.DependencyInjection.Autofac/DefaultInterceptor.cs:121-137 | the loop over task functions builds the onion around the target call, proceeding or direct |
| `Interception.AutofacInterceptAsyncOf` | Src/iFramework.Plugins/IFramework.DependencyInjection.Autofac/DefaultInterceptor.cs:103-119 | the same for tasks with a result |
| `Interception.AutofacIntercept` | Src/iFramework.Plugins/IFramework.DependencyInjection.Autofac/DefaultInterceptor.cs:139-200 | the picked form runs on the collected attributes, and without any the method just proceeds |
| `Interception.AutofacInterceptWith` | Src/iFramework.Plugins/IFramework.DependencyInjection.Autofac/DefaultInterceptor.cs:146-193 | the return type picks the form |
| `Interception.UnityInvokeVoid` | Src/iFramework.Plugins/IFramework.DependencyInjection.Unity/DefaultInterceptor.cs:176-195 | the void form returns what its innermost action captured, or a null result when nobody called it |
| `Interception.UnityInvokeValue` | Src/iFramework.Plugins/IFramework.DependencyInjection.Unity/DefaultInterceptor.cs:159-175 | the loop over functions builds the onion around the next behaviour's value |
| `Interception.UnityInterceptAsync` | Src/iFramework.Plugins/IFramework.DependencyInjection.Unity/DefaultInterceptor.cs:109-129 | the loop over task functions builds the onion around the next behaviour's task |
| `Interception.UnityInvoke` | Src/iFramework.Plugins/IFramework.DependencyInjection.Unity/DefaultInterceptor.cs:131-202 | the picked form runs on the collected attributes, and without any the next behaviour is invoked |
| `Interception.UnityInvokeWith` | Src/iFramework.Plugins/IFramework.DependencyInjection.Unity/DefaultInterceptor.cs:143-196 | the return type picks the form |
| `Interception.AllFormsWorkAroundOneCall` | Src/iFramework.Plugins/IFramework.DependencyInjection.Autofac/DefaultInterceptor.cs:103-194 | for one before and after in every overload, all eight forms do the whole work inward, call the method once, do the whole work outward, and give back what the method returned |
| `Interception.MethodRunsInEveryForm` | Src/iFramework.Plugins/IFramework.DependencyInjection.Unity/DefaultInterceptor.cs:109-195 | both containers leave the same world and give the same object back: for each kind of method, what the method itself does and returns between the work inward and the work outward |
| `Interception.TargetRunsOnce` | Src/iFramework.Plugins/IFramework.DependencyInjection.Unity/DefaultInterceptor.cs:86-195 | if each interceptor calls its function once, the target runs exactly once in every form of both containers |
| `Interception.AllFormsGiveTheSameTrace` | Src/iFramework/DependencyInjection/InterceptorAttribute.cs:9-12 | for every kind of method, the attributes that the container collects are entered from the last one down, the target runs once, and they are left in mirror order; the method's own result comes back |
| `Interception.ContainersGiveTheSameOutcome` | Src/iFramework.Plugins/IFramework.DependencyInjection.Autofac/DefaultInterceptor.cs:139-200 | when the target brings no attributes of its own, both containers leave the same trace and give the same object back |
| `Interception.HighestOrderEntersFirst` | Src/iFramework/DependencyInjection/InterceptorAttribute.cs:9-12 | in either container the first layer entered is that of an attribute with the highest order of all on the method, its type and, for Autofac, the target and its type |
| `Mailboxes.NoMessageIsForgotten` | Src/iFramework/Infrastructure/Mailboxes/Impl/Mailbox.cs:37-95 | in any run, a mailbox that holds a message has somebody about to look at its queue: a run loop, a check after one, a call to the scheduler, or the command loop |
| `Mailboxes.CleanRunsAreExclusive` | Src/iFramework/Infrastructure/Mailboxes/Impl/MailboxProcessor.cs:46-107 | over every interleaving of clients, the command loop and run loops in which only quiet mailboxes are dropped, messages of a key run one at a time and start in the order of their submission |
| `Mailboxes.BusyRemovalBreaksExclusion` | Src/iFramework/Infrastructure/Mailboxes/Impl/MailboxProcessor.cs:100-107 | whenever a mailbox is dropped that holds or runs a message, the run can go on to have two messages of the key running at once |
| `Mailboxes.RemovalIsSafeIff` | Src/iFramework/Infrastructure/Mailboxes/Impl/MailboxProcessor.cs:100-107 | dropping a mailbox keeps the key's messages apart if and only if it holds no message and runs none |
| `Mailboxes.ExclusionIffQuietRemovals` | Src/iFramework/Infrastructure/Mailboxes/Impl/MailboxProcessor.cs:69-107 | messages of a key are kept apart for good at every point of a run if and only if every mailbox the run dropped was quiet |
| `Mailboxes.TwoMessagesRunAtOnce` | Src/iFramework/Infrastructure/Mailboxes/Impl/MailboxProcessor.cs:100-107 | the concrete run of three messages in which the third starts while the second runs |
| `BucketSort.BucketSortPlain` | Src/iFramework.Plugins/IFramework.Log4Net/SortHelpers.cs:22-40 | the loop over the inputs computes the grouping |
| `BucketSort.GroupedFindsTheBucket` | Src/iFramework.Plugins/IFramework.Log4Net/SortHelpers.cs:22-40 | under an equivalence comparer every key finds its inputs in order, and keys are kept once |
| `BucketSort.BucketSortList` | Src/iFramework.Plugins/IFramework.Log4Net/SortHelpers.cs:68-115 | the single-bucket form has the plain grouping's content on every non-empty list |
| `BucketSort.LookupsAgree` | Src/iFramework.Plugins/IFramework.Log4Net/SortHelpers.cs:332-371 | look-ups and count of the read-only dictionary are those of the plain dictionary with its content |
| `BucketSort.RefinesIffNotEmpty` | Src/iFramework.Plugins/IFramework.Log4Net/SortHelpers.cs:68-115 | the single-bucket form agrees with the plain one for all keys if and only if the list is not empty |
| `ListWithout.List.Without` | Src/iFramework.Plugins/Blueshift.EntityFrameworkCore.MongoDB/ListExtensions.cs:81-88 | when the predicate respects equality, what stays is the order-preserving filter |
| `ListWithout.WithoutIsFilterIffRespectful` | Src/iFramework.Plugins/Blueshift.EntityFrameworkCore.MongoDB/ListExtensions.cs:81-88 | the result is the filter on every list if and only if the predicate respects the equality |
| `LegacyCookie.SplitUndoesJoin` | Src/iFramework.Plugins/IFramework.AspNet/Extensions.cs:272-280 | splitting undoes joining for parts without the separator |
| `LegacyCookie.PrintOneMore` | Src/iFramework.Plugins/IFramework.AspNet/Extensions.cs:277-280 | pairs are printed in order with `&` between them, each as key, `=` and value, a null value as nothing |
| `LegacyCookie.ParsesIff` | Src/iFramework.Plugins/IFramework.AspNet/Extensions.cs:272-275 | a string parses if and only if every part between two `&` holds an `=` and no two parts have the same key |
| `LegacyCookie.RoundTripIffPrintable` | Src/iFramework.Plugins/IFramework.AspNet/Extensions.cs:272-280 | parsing a printed dictionary gives it back if and only if it is not empty, no value is null, and no key or value contains a separator |
| `LegacyCookie.JoinUndoesSplit` | Src/iFramework.Plugins/IFramework.AspNet/Extensions.cs:272-280 | joining undoes splitting, for any string and separator |
| `LegacyCookie.ParsedPrintsBackIffNoExtraFields` | Src/iFramework.Plugins/IFramework.AspNet/Extensions.cs:272-280 | a string that parses has distinct keys and is printed back unchanged if and only if no part holds a second `=` |
| `EventStoreClient.GetEvents` | Src/IFramework.EventStore.Client/EventStore.cs:35-65 | however the pages are cut, the loop ends and returns the stream's suffix, each event once and in order |
| `EventStoreClient.AppendEvents` | Src/IFramework.EventStore.Client/EventStore.cs:69-92 | each event gets the next version after the expected one; an unexpected version appends nothing |
| `EventStoreClient.OneMoreAppend` | Src/IFramework.EventStore.Client/EventStore.cs:77-91 | after any appends one more adds its payloads in order behind the stream, numbered from the version behind the expected one, if it expects none or the last position, and nothing otherwise |
| `EventStoreClient.AppendKeepsVersionsIff` | Src/IFramework.EventStore.Client/EventStore.cs:77-91 | an accepted append keeps versions equal to positions if and only if it is empty or names a version of at least -1 |
| `EventStoreClient.VersionsStayPositions` | Src/IFramework.EventStore.Client/EventStore.cs:77-91 | over any sequence of such appends each event's version is its position |
| `EventStoreClient.ReadingFromAVersion` | Src/IFramework.EventStore.Client/EventStore.cs:35-65 | reading from a version returns the events with that version and all later ones in order |

## Left out

- EventStore.RedisEventStore.RunAppendScript: does not model how keys are spelled; distinct aggregate ids and command ids are taken to give distinct keys, and no command id is the word `events`. Scores are whole numbers, so comparing them as text is comparing them.
- EventStore.RedisEventStore.AppendEvents: does not model JSON; payloads stand for the objects they encode, a null and an empty event array are one value, and white space is the ASCII kind.
- EventStore.StreamIsAcceptedBatches: does not cover different commands with one and the same batch, because the sorted set would move the batch; `AcceptedBatchIsAppendedIffFresh` says exactly what happens then.
- CommandProcessor.ConsumeMessage: does not model exceptions of the connection to the store, retries after unique-constraint exceptions, or the wrapping of messages; a message sent is its content.
- CommandProcessor.ProcessAsync: does not model retries after exceptions that a parser recognises as violated unique constraints; the store has no such constraints.
- CommandProcessor.UndisturbedRetryCommits: does not model aggregates themselves; the retry's load version is taken from the repository's own steps.
- EventHandling.ConsumeMessage: does not model a null message, for which nothing but the commit of the offset happens, nor the reply shared by the handler types of one event, which is stored but never read back.
- SlidingDoors.CommitsAreSafe: does not cover offsets added out of order, as after a rebalance onto a live door, nor commit-per-message mode, which commits offsets in completion order.
- KafkaConsumer.NoMessageIsLost: does not model several consumers of one group; partitions are independent because their doors are.
- KafkaConsumer.LoadIsBounded: does not model waiting; polling is simply not possible above the threshold.
- ServiceBus.RecoverDeferred: does not model exceptions of the callback, which are steps of `ServiceBusRuns`, nor of the peek, after which the loop peeks from the same number again.
- ServiceBusRuns.RestartRedeliversEveryDeferredMessage: does not cover failing calls; `CrashRecoversAllIff` says exactly what a crash then recovers.
- LogicalContext.Execute: does not model the formatting of values; dictionaries hold strings.
- LoggerScopes.Execute: does not model several flows; the current scope is the one flow's slot.
- NestedContexts.Execute: does not model explicit pops and clears, creation times and value formatting.
- Interception.UnityInvoke: does not model exceptions, which a method return may hold.
- Interception.AllFormsGiveTheSameTrace: does not model tasks; an awaited task is its result.
- BucketSort.BucketSortList: does not model that a single bucket is the caller's own list rather than a copy, nor null keys, which the plain dictionary refuses.
- EventStoreClient.GetEvents: does not model the `end` bound, because what a page reports as its last event number is decided by the client library, which is not part of this model.
- Mailboxes.ExclusionIffQuietRemovals: does not model the objects behind the protocol, one key and its mailboxes being values, nor results and exceptions of messages, which reach their own callers only; stopping the processor drops whatever is queued.
- Broker, Redis, Entity Framework and HTTP clients, logging sinks, dependency injection, transactions, settings and samples: input and output over libraries that are not part of this model.
- `ServiceBus/CommandBus.cs`, whose replies are found by correlation id and dropped by message id, JSON settings, enum converters and other code without state or loops.
