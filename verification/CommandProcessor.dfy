/**
 The event-sourcing command processor: one delivery of a command with its retries, any
 sequence of deliveries, and what a redelivery repeats.
 */
module CommandProcessor {
  import opened Wrappers
  import opened EventStore
  import opened CommandProcessing
  import opened Handlers

  /** `ProcessAsync` is called with its default of 50 retries. */
  const RETRY_COUNT := 50

  datatype SagaInfo = SagaInfo(sagaId: string, replyEndPoint: string)

  datatype Command = Command(
    key: string,
    messageId: string,
    hasHandler: bool,
    needReply: bool,
    sagaInfo: Option<SagaInfo>)

  /**
   One attempt of the retried body: what other writers append before it reaches the store,
   the cache as it then is, and what the handler does. Besides its run that is the roots it
   tracks in the repositories, and the events it wants published anyway.
   */
  datatype Round = Round(
    others: seq<AppendRequest>,
    cache: map<string, Root>,
    handler: HandlerRun,
    repositories: seq<seq<Entry>>,
    anyway: seq<Event>)

  /** A message handed to the publisher. */
  datatype Out = EventOut(event: Event) | SagaOut(topic: string, result: string) | ReplyOut(reply: Option<string>)

  datatype Ending = Done(outcome: AppendOutcome) | GaveUp | NoHandler

  datatype Delivery = Delivery(aggregate: Aggregate, sent: seq<Out>, ending: Ending)

  // ----- the specification of one delivery -----------------------------------

  function BusAfter(cmd: Command, round: Round): Bus {
    var h := round.handler;
    var bus := Bus(h.published, h.commands, h.sagaResult, round.anyway);
    match h.fault
    case NoFault => bus
    case DomainFault(_, event) => if event.Some? then bus.(events := bus.events + [event.value]) else bus
    case OtherFault(error, _) => if cmd.sagaInfo.Some? then bus.(sagaResult := Some(error)) else bus
  }

  function ReplyAfter(h: HandlerRun): Option<string> {
    match h.fault
    case NoFault => h.reply
    case DomainFault(error, _) => Some(error)
    case OtherFault(_, message) => Some(message)
  }

  ghost function BeforeCommit(cmd: Command, a: Aggregate, round: Round): CommitState {
    CommitState(Run(a, round.others), round.cache, round.repositories,
                BusAfter(cmd, round), ReplyAfter(round.handler))
  }

  function EventOuts(events: seq<Event>): seq<Out> {
    seq(|events|, i requires 0 <= i < |events| => EventOut(events[i]))
  }

  /** The saga reply is sent only to a named saga with an end point. */
  function SagaOuts(cmd: Command, sagaResult: Option<string>): seq<Out> {
    if && cmd.sagaInfo.Some? && !Blank(Some(cmd.sagaInfo.value.sagaId))
       && sagaResult.Some? && cmd.sagaInfo.value.replyEndPoint != ""
    then [SagaOut(cmd.sagaInfo.value.replyEndPoint, sagaResult.value)] else []
  }

  function ReplyOuts(cmd: Command, reply: Option<string>): seq<Out> {
    if cmd.needReply then [ReplyOut(reply)] else []
  }

  function Outgoing(cmd: Command, bus: Bus, reply: Option<string>): seq<Out> {
    EventOuts(bus.events) + SagaOuts(cmd, bus.sagaResult) + ReplyOuts(cmd, reply)
  }

  ghost function Attempt(cmd: Command, a: Aggregate, rounds: seq<Round>): Delivery
    requires rounds != []
    decreases |rounds|
  {
    var (s, ending) := Commit(cmd.key, cmd.messageId, BeforeCommit(cmd, a, rounds[0]));
    match ending
    case Completed(outcome) => Delivery(s.aggregate, Outgoing(cmd, s.bus, s.reply), Done(outcome))
    case TooManyRoots => Delivery(s.aggregate, [], GaveUp)
    case ConcurrencyException =>
      if |rounds| == 1 then Delivery(s.aggregate, [], GaveUp) else Attempt(cmd, s.aggregate, rounds[1..])
  }

  ghost function Consume(cmd: Command, a: Aggregate, rounds: seq<Round>): Delivery
    requires |rounds| == RETRY_COUNT + 1
  {
    if cmd.hasHandler then Attempt(cmd, a, rounds)
    else Delivery(a, ReplyOuts(cmd, Some("NoHandlerExists")), NoHandler)
  }

  // ----- the processor -------------------------------------------------------

  /** The appends of other writers reach the store between two steps of this one. */
  method Interfere(store: RedisEventStore, id: string, others: seq<AppendRequest>)
    modifies store
    ensures store.AggregateOf(id) == Run(old(store.AggregateOf(id)), others)
    ensures forall other :: other != id ==> store.AggregateOf(other) == old(store.AggregateOf(other))
  {
    var i := 0;
    while i < |others|
      invariant 0 <= i <= |others|
      invariant store.AggregateOf(id) == Run(old(store.AggregateOf(id)), others[..i])
      invariant forall other :: other != id ==> store.AggregateOf(other) == old(store.AggregateOf(other))
    {
      var _ := store.AppendEvents(id, others[i]);
      assert others[..i + 1][..i] == others[..i];
      i := i + 1;
    }
    assert others[..i] == others;
  }

  /** The handler runs on a cleared bus and a null reply; its exception is turned into a reply. */
  method RunHandler(cmd: Command, round: Round, unitOfWork: UnitOfWork)
    modifies unitOfWork, unitOfWork.eventBus, unitOfWork.context
    ensures unitOfWork.repositories == round.repositories
    ensures unitOfWork.eventBus.State() == BusAfter(cmd, round)
    ensures unitOfWork.context.reply == ReplyAfter(round.handler)
  {
    var eventBus, context, h := unitOfWork.eventBus, unitOfWork.context, round.handler;
    context.reply := None;
    eventBus.ClearMessages();
    unitOfWork.repositories := round.repositories;
    eventBus.eventQueue, eventBus.commandQueue := h.published, h.commands;
    eventBus.sagaResult, eventBus.toPublishAnyway := h.sagaResult, round.anyway;
    context.reply := h.reply;
    match h.fault {
      case NoFault =>
      case DomainFault(error, event) =>
        context.reply := Some(error);
        if event.Some? {
          eventBus.Publish([event.value]);
        }
      case OtherFault(error, message) =>
        if cmd.sagaInfo.Some? {
          eventBus.FinishSaga(Some(error));
        }
        context.reply := Some(message);
    }
  }

  /** The retried body: others act, the handler runs, and the unit of work commits. */
  method AttemptOnce(cmd: Command, round: Round, unitOfWork: UnitOfWork) returns (ending: CommitEnding)
    requires unitOfWork.context.key == cmd.key && unitOfWork.context.messageId == cmd.messageId
    modifies unitOfWork, unitOfWork.eventStore, unitOfWork.eventBus, unitOfWork.context, unitOfWork.inMemoryStore
    ensures (unitOfWork.State(), ending) ==
            Commit(cmd.key, cmd.messageId, BeforeCommit(cmd, old(unitOfWork.eventStore.AggregateOf(cmd.key)), round))
    ensures forall id :: id != cmd.key ==> unitOfWork.eventStore.AggregateOf(id) == old(unitOfWork.eventStore.AggregateOf(id))
  {
    Interfere(unitOfWork.eventStore, cmd.key, round.others);
    unitOfWork.inMemoryStore.contents := round.cache;
    RunHandler(cmd, round, unitOfWork);
    ending := unitOfWork.CommitAsync();
  }

  /** The cache as a delivery leaves it. */
  ghost function CacheAfter(cmd: Command, a: Aggregate, rounds: seq<Round>): map<string, Root>
    requires rounds != []
    decreases |rounds|
  {
    var (s, ending) := Commit(cmd.key, cmd.messageId, BeforeCommit(cmd, a, rounds[0]));
    if ending.ConcurrencyException? && |rounds| > 1 then CacheAfter(cmd, s.aggregate, rounds[1..]) else s.cache
  }

  /** The retry loop of the concurrency processor. */
  method ProcessAsync(cmd: Command, rounds: seq<Round>, unitOfWork: UnitOfWork)
    returns (sent: seq<Out>, ghost ending: Ending)
    requires |rounds| == RETRY_COUNT + 1
    requires unitOfWork.context.key == cmd.key && unitOfWork.context.messageId == cmd.messageId
    modifies unitOfWork, unitOfWork.eventStore, unitOfWork.eventBus, unitOfWork.context, unitOfWork.inMemoryStore
    ensures Delivery(unitOfWork.eventStore.AggregateOf(cmd.key), sent, ending) ==
            Attempt(cmd, old(unitOfWork.eventStore.AggregateOf(cmd.key)), rounds)
    ensures unitOfWork.inMemoryStore.contents ==
            CacheAfter(cmd, old(unitOfWork.eventStore.AggregateOf(cmd.key)), rounds)
    ensures forall id :: id != cmd.key ==> unitOfWork.eventStore.AggregateOf(id) == old(unitOfWork.eventStore.AggregateOf(id))
  {
    var store := unitOfWork.eventStore;
    var retryCount := RETRY_COUNT;
    ghost var a0 := store.AggregateOf(cmd.key);
    while true
      invariant 0 <= retryCount <= RETRY_COUNT
      invariant Attempt(cmd, a0, rounds) ==
                Attempt(cmd, store.AggregateOf(cmd.key), rounds[RETRY_COUNT - retryCount..])
      invariant CacheAfter(cmd, a0, rounds) ==
                CacheAfter(cmd, store.AggregateOf(cmd.key), rounds[RETRY_COUNT - retryCount..])
      invariant forall id :: id != cmd.key ==> store.AggregateOf(id) == old(store.AggregateOf(id))
      decreases retryCount
    {
      var commitEnding := AttemptOnce(cmd, rounds[RETRY_COUNT - retryCount], unitOfWork);
      match commitEnding {
        case Completed(outcome) =>
          return Outgoing(cmd, unitOfWork.eventBus.State(), unitOfWork.context.reply), Done(outcome);
        case TooManyRoots =>
          return [], GaveUp;
        case ConcurrencyException =>
          if retryCount <= 0 {
            return [], GaveUp;
          }
          retryCount := retryCount - 1;
          assert rounds[RETRY_COUNT - retryCount - 1..][1..] == rounds[RETRY_COUNT - retryCount..];
      }
    }
  }

  /** `ConsumeMessage`: run the handler and commit, again after each conflict; the offset is committed however it ends. */
  method ConsumeMessage(store: RedisEventStore, cache: InMemoryStore, consumer: InternalConsumer, cmd: Command,
                        rounds: seq<Round>)
    returns (sent: seq<Out>, ghost ending: Ending)
    requires |rounds| == RETRY_COUNT + 1
    modifies store, cache, consumer
    ensures Delivery(store.AggregateOf(cmd.key), sent, ending) == Consume(cmd, old(store.AggregateOf(cmd.key)), rounds)
    ensures cache.contents == if cmd.hasHandler then CacheAfter(cmd, old(store.AggregateOf(cmd.key)), rounds) else old(cache.contents)
    ensures forall id :: id != cmd.key ==> store.AggregateOf(id) == old(store.AggregateOf(id))
    ensures consumer.committed == old(consumer.committed) + [cmd.messageId]
  {
    if cmd.hasHandler {
      var eventBus := new EventBus();
      var context := new MessageContext(cmd.key, cmd.messageId);
      var unitOfWork := new UnitOfWork(store, eventBus, context, cache);
      sent, ending := ProcessAsync(cmd, rounds, unitOfWork);
    } else {
      sent, ending := ReplyOuts(cmd, Some("NoHandlerExists")), NoHandler;
    }
    consumer.CommitOffset(cmd.messageId);
  }

  // ----- deliveries as runs of the store -------------------------------------

  /** All appends that reach the store while a delivery is processed, in order. */
  ghost function Requests(cmd: Command, a: Aggregate, rounds: seq<Round>): seq<AppendRequest>
    requires rounds != []
    decreases |rounds|
  {
    var s := BeforeCommit(cmd, a, rounds[0]);
    var (s', ending) := Commit(cmd.key, cmd.messageId, s);
    if ending.TooManyRoots? then rounds[0].others
    else rounds[0].others + [Request(cmd.messageId, s)] +
         (if ending.ConcurrencyException? && |rounds| > 1 then Requests(cmd, s'.aggregate, rounds[1..]) else [])
  }

  lemma CommitAppendsOnce(cmd: Command, a: Aggregate, round: Round)
    ensures var s := BeforeCommit(cmd, a, round);
            var (s', ending) := Commit(cmd.key, cmd.messageId, s);
            s'.aggregate == if ending.TooManyRoots? then Run(a, round.others)
                            else Run(a, round.others + [Request(cmd.messageId, s)])
  {
    var s := BeforeCommit(cmd, a, round);
    CommitStores(cmd.key, cmd.messageId, s);
    RunOneMore(a, round.others, Request(cmd.messageId, s));
  }

  lemma {:induction false} AttemptIsRun(cmd: Command, a: Aggregate, rounds: seq<Round>)
    requires rounds != []
    ensures Attempt(cmd, a, rounds).aggregate == Run(a, Requests(cmd, a, rounds))
    decreases |rounds|
  {
    CommitAppendsOnce(cmd, a, rounds[0]);
    var s := BeforeCommit(cmd, a, rounds[0]);
    var (s', ending) := Commit(cmd.key, cmd.messageId, s);
    var through := rounds[0].others + [Request(cmd.messageId, s)];
    if ending.ConcurrencyException? && |rounds| > 1 {
      AttemptIsRun(cmd, s'.aggregate, rounds[1..]);
      RunConcat(a, through, Requests(cmd, s'.aggregate, rounds[1..]));
    } else if !ending.TooManyRoots? {
      assert Requests(cmd, a, rounds) == through;
    }
  }

  /** One delivery of some command of the aggregate. */
  datatype Call = Call(cmd: Command, rounds: seq<Round>)

  /** Any sequence of deliveries and redeliveries of commands with one key. */
  ghost function Deliver(a: Aggregate, calls: seq<Call>): Aggregate
    requires forall i :: 0 <= i < |calls| ==> |calls[i].rounds| == RETRY_COUNT + 1
    decreases |calls|
  {
    if calls == [] then a
    else Deliver(Consume(calls[0].cmd, a, calls[0].rounds).aggregate, calls[1..])
  }

  ghost function AllRequests(a: Aggregate, calls: seq<Call>): seq<AppendRequest>
    requires forall i :: 0 <= i < |calls| ==> |calls[i].rounds| == RETRY_COUNT + 1
    decreases |calls|
  {
    if calls == [] then []
    else
      var first := if calls[0].cmd.hasHandler then Requests(calls[0].cmd, a, calls[0].rounds) else [];
      first + AllRequests(Consume(calls[0].cmd, a, calls[0].rounds).aggregate, calls[1..])
  }

  lemma {:induction false} DeliveriesAreRuns(a: Aggregate, calls: seq<Call>)
    requires forall i :: 0 <= i < |calls| ==> |calls[i].rounds| == RETRY_COUNT + 1
    ensures Deliver(a, calls) == Run(a, AllRequests(a, calls))
    decreases |calls|
  {
    if calls == [] {
    } else {
      var b := Consume(calls[0].cmd, a, calls[0].rounds).aggregate;
      var first := if calls[0].cmd.hasHandler then Requests(calls[0].cmd, a, calls[0].rounds) else [];
      if calls[0].cmd.hasHandler {
        AttemptIsRun(calls[0].cmd, a, calls[0].rounds);
      }
      DeliveriesAreRuns(b, calls[1..]);
      RunConcat(a, first, AllRequests(b, calls[1..]));
    }
  }

  /**
   However commands are delivered, retried, redelivered and interleaved with other writers,
   the stream is the concatenation of the accepted batches with contiguous scores, and a
   command extends it at most once.
   */
  lemma DeliveriesKeepTheStream(calls: seq<Call>)
    requires forall i :: 0 <= i < |calls| ==> |calls[i].rounds| == RETRY_COUNT + 1
    requires DistinctBatches(AllRequests(EMPTY, calls))
    ensures var qs := AllRequests(EMPTY, calls);
            && Deliver(EMPTY, calls).events == Accepted(qs) && Contiguous(Accepted(qs))
            && forall i, j | 0 <= i < j < |qs| && ExtendsAt(qs, i) && ExtendsAt(qs, j) ::
                 qs[i].commandId != qs[j].commandId
  {
    var qs := AllRequests(EMPTY, calls);
    DeliveriesAreRuns(EMPTY, calls);
    StreamIsAcceptedBatches(qs);
    forall i, j | 0 <= i < j < |qs| && ExtendsAt(qs, i) && ExtendsAt(qs, j)
      ensures qs[i].commandId != qs[j].commandId
    {
      RecordedAfterExtension(qs, i, j);
    }
  }

  lemma RecordedAfterExtension(qs: seq<AppendRequest>, i: nat, j: nat)
    requires i < j <= |qs| && ExtendsAt(qs, i)
    ensures qs[i].commandId in Run(EMPTY, qs[..j]).records
  {
    var upTo := qs[..i + 1];
    assert upTo[..i] == qs[..i] && upTo + qs[i + 1..j] == qs[..j];
    RunConcat(EMPTY, upTo, qs[i + 1..j]);
    RecordsNeverChange(Run(EMPTY, upTo), qs[i + 1..j]);
  }

  // ----- what a delivery sends and records, written out -----------------------

  /** The store as the `k`-th attempt finds it when nothing but the appends of other writers changed it. */
  ghost function StoreAt(a: Aggregate, rounds: seq<Round>, k: nat): Aggregate
    requires k < |rounds|
    decreases k
  {
    if k == 0 then Run(a, rounds[0].others) else StoreAt(Run(a, rounds[0].others), rounds[1..], k - 1)
  }

  /** The handler of the attempt moved one root, which it loaded at `v`, and no other. */
  ghost predicate Moves(round: Round, r: nat, i: nat, root: Root, v: nat) {
    && r < |round.repositories| && i < |round.repositories[r]|
    && round.repositories[r][i] == Entry(v, root, false) && (v == 0 || root.version > v) && root.domainEvents != []
    && OthersStill(round.repositories, r, i)
  }

  /** The root was loaded at a version that is no longer the head's. */
  ghost predicate Overtaken(a: Aggregate, round: Round) {
    exists r, i, root, v :: Moves(round, r, i, root, v)
                            && v > 0 && a.events != [] && a.events[|a.events| - 1].score != v
  }

  /** The attempt moves one root, loaded at the head, by these fresh events, or moves none by none. */
  ghost predicate Timely(a: Aggregate, round: Round, events: seq<Event>) {
    || (AllStill(round.repositories) && events == [])
    || exists r, i, root, v :: Moves(round, r, i, root, v) && root.domainEvents == events
                               && (a.events == [] || a.events[|a.events| - 1].score == v)
                               && forall k :: 0 <= k < |a.events| ==> a.events[k].batch != events
  }

  /** The messages sent: the events, then the saga's reply and the command's, if they go out. */
  ghost predicate SendsExactly(sent: seq<Out>, events: seq<Event>, saga: Option<Out>, reply: Option<Out>) {
    && |sent| == |events| + (if saga.Some? then 1 else 0) + (if reply.Some? then 1 else 0)
    && (forall i :: 0 <= i < |events| ==> sent[i] == EventOut(events[i]))
    && (saga.Some? ==> sent[|events|] == saga.value)
    && (reply.Some? ==> sent[|sent| - 1] == reply.value)
  }

  /** The saga's reply goes out if there is a result, and a saga with a name and an end point to send it to. */
  ghost predicate SagaReplyIs(cmd: Command, sagaResult: Option<string>, saga: Option<Out>) {
    if && sagaResult.Some? && cmd.sagaInfo.Some? && cmd.sagaInfo.value.replyEndPoint != ""
       && exists c :: c in cmd.sagaInfo.value.sagaId && c != ' ' && c != '\t' && c != '\n' && c != '\r'
    then saga == Some(SagaOut(cmd.sagaInfo.value.replyEndPoint, sagaResult.value))
    else saga == None
  }

  /** The delivery committed: this is what it recorded for the command, and what it sent. */
  ghost predicate CommittedWith(cmd: Command, d: Delivery, reply: Option<string>, sagaResult: Option<string>,
                                published: seq<Event>, events: seq<Event>) {
    && d.ending == Done(Appended)
    && cmd.messageId in d.aggregate.records
    && d.aggregate.records[cmd.messageId] == CommandResult(reply, sagaResult, published, events)
    && exists saga :: SagaReplyIs(cmd, sagaResult, saga)
                      && SendsExactly(d.sent, published + events, saga, if cmd.needReply then Some(ReplyOut(reply)) else None)
  }

  /** How the handler's end becomes the command's answer. */
  ghost predicate CommittedAs(cmd: Command, d: Delivery, h: HandlerRun, events: seq<Event>) {
    match h.fault
    case NoFault => CommittedWith(cmd, d, h.reply, h.sagaResult, h.published, events)
    case DomainFault(error, None) => CommittedWith(cmd, d, Some(error), h.sagaResult, h.published, events)
    case DomainFault(error, Some(event)) => CommittedWith(cmd, d, Some(error), h.sagaResult, h.published + [event], events)
    case OtherFault(error, message) =>
      CommittedWith(cmd, d, Some(message), if cmd.sagaInfo.Some? then Some(error) else h.sagaResult, h.published, events)
  }

  lemma OutgoingIs(cmd: Command, bus: Bus, reply: Option<string>) returns (saga: Option<Out>)
    ensures SagaReplyIs(cmd, bus.sagaResult, saga)
    ensures SendsExactly(Outgoing(cmd, bus, reply), bus.events, saga, if cmd.needReply then Some(ReplyOut(reply)) else None)
  {
    var out := SagaOuts(cmd, bus.sagaResult);
    saga := if out == [] then None else Some(out[0]);
  }

  /** One attempt that is not overtaken commits with the answer its handler's end gives. */
  lemma TimelyAttemptCommits(cmd: Command, a: Aggregate, rounds: seq<Round>, events: seq<Event>)
    requires rounds != [] && cmd.messageId !in Run(a, rounds[0].others).records
    requires Timely(Run(a, rounds[0].others), rounds[0], events)
    ensures CommittedAs(cmd, Attempt(cmd, a, rounds), rounds[0].handler, events)
  {
    TimelyCommit(cmd, a, rounds[0], events);
    var (s', _) := Commit(cmd.key, cmd.messageId, BeforeCommit(cmd, a, rounds[0]));
    var saga := OutgoingIs(cmd, s'.bus, s'.reply);
  }

  lemma TimelyCommit(cmd: Command, a: Aggregate, round: Round, events: seq<Event>)
    requires cmd.messageId !in Run(a, round.others).records && Timely(Run(a, round.others), round, events)
    ensures var s := BeforeCommit(cmd, a, round);
            var (s', ending) := Commit(cmd.key, cmd.messageId, s);
            && ending == Completed(Appended)
            && s'.bus == s.bus.(events := s.bus.events + events) && s'.reply == s.reply
            && s'.aggregate.records ==
               s.aggregate.records[cmd.messageId := CommandResult(s.reply, s.bus.sagaResult, s.bus.events, events)]
  {
    var s := BeforeCommit(cmd, a, round);
    if AllStill(round.repositories) && events == [] {
      CommitWithoutChange(cmd.key, cmd.messageId, s);
      assert s.bus.events + [] == s.bus.events;
    } else {
      var r, i, root, v :| Moves(round, r, i, root, v) && root.domainEvents == events
                           && (s.aggregate.events == [] || s.aggregate.events[|s.aggregate.events| - 1].score == v)
                           && forall k :: 0 <= k < |s.aggregate.events| ==> s.aggregate.events[k].batch != events;
      CommitAppendsTheMovedRoot(cmd.key, cmd.messageId, s, r, i, root, v);
    }
  }

  lemma OvertakenAttemptConflicts(cmd: Command, a: Aggregate, round: Round)
    requires cmd.messageId !in Run(a, round.others).records && Overtaken(Run(a, round.others), round)
    ensures var (s, ending) := Commit(cmd.key, cmd.messageId, BeforeCommit(cmd, a, round));
            ending == ConcurrencyException && s.aggregate == Run(a, round.others)
  {
    var s := BeforeCommit(cmd, a, round);
    var r, i, root, v :| Moves(round, r, i, root, v)
                         && v > 0 && s.aggregate.events != [] && s.aggregate.events[|s.aggregate.events| - 1].score != v;
    CommitRefusesTheStaleRoot(cmd.key, cmd.messageId, s, r, i, root, v);
  }

  /** An overtaken attempt is the last one, or the next one follows on the store it left. */
  lemma OvertakenAttempt(cmd: Command, a: Aggregate, rounds: seq<Round>)
    requires rounds != []
    requires cmd.messageId !in Run(a, rounds[0].others).records && Overtaken(Run(a, rounds[0].others), rounds[0])
    ensures Attempt(cmd, a, rounds) ==
            if |rounds| == 1 then Delivery(Run(a, rounds[0].others), [], GaveUp)
            else Attempt(cmd, Run(a, rounds[0].others), rounds[1..])
  {
    OvertakenAttemptConflicts(cmd, a, rounds[0]);
  }

  /** The first `k` attempts are overtaken, and until then nobody else records the command. */
  ghost predicate OvertakenUntil(cmd: Command, a: Aggregate, rounds: seq<Round>, k: nat)
    requires k <= |rounds|
    decreases k
  {
    k == 0 ||
    (var b := Run(a, rounds[0].others);
     cmd.messageId !in b.records && Overtaken(b, rounds[0]) && OvertakenUntil(cmd, b, rounds[1..], k - 1))
  }

  lemma {:induction false} AttemptsAreRepeated(cmd: Command, a: Aggregate, rounds: seq<Round>, k: nat, events: seq<Event>)
    requires k < |rounds| && OvertakenUntil(cmd, a, rounds, k)
    requires cmd.messageId !in StoreAt(a, rounds, k).records && Timely(StoreAt(a, rounds, k), rounds[k], events)
    ensures CommittedAs(cmd, Attempt(cmd, a, rounds), rounds[k].handler, events)
    decreases k
  {
    if k == 0 {
      TimelyAttemptCommits(cmd, a, rounds, events);
    } else {
      OvertakenAttempt(cmd, a, rounds);
      AttemptsAreRepeated(cmd, Run(a, rounds[0].others), rounds[1..], k - 1, events);
    }
  }

  /**
   A delivery whose first attempts are overtaken, up to fifty of them, and whose next one is not,
   commits. It records and sends what that attempt's handler made: its events, and those of the
   root it moved behind them; a domain exception as the reply, with its event behind the handler's;
   or any other exception's message as the reply and its error as the saga's result.
   */
  lemma DeliveryCommitsAfterConflicts(cmd: Command, a: Aggregate, rounds: seq<Round>, k: nat, events: seq<Event>)
    requires cmd.hasHandler && |rounds| == 51 && k <= 50 && OvertakenUntil(cmd, a, rounds, k)
    requires cmd.messageId !in StoreAt(a, rounds, k).records && Timely(StoreAt(a, rounds, k), rounds[k], events)
    ensures CommittedAs(cmd, Consume(cmd, a, rounds), rounds[k].handler, events)
  {
    AttemptsAreRepeated(cmd, a, rounds, k, events);
  }

  lemma {:induction false} AllAttemptsOvertaken(cmd: Command, a: Aggregate, rounds: seq<Round>)
    requires rounds != [] && OvertakenUntil(cmd, a, rounds, |rounds|)
    ensures Attempt(cmd, a, rounds) == Delivery(StoreAt(a, rounds, |rounds| - 1), [], GaveUp)
    decreases |rounds|
  {
    if |rounds| == 1 {
      OvertakenAttempt(cmd, a, rounds);
    } else {
      OvertakenAttempt(cmd, a, rounds);
      AllAttemptsOvertaken(cmd, Run(a, rounds[0].others), rounds[1..]);
    }
  }

  /** A delivery all of whose fifty-one attempts are overtaken gives up; nothing of it is stored or sent. */
  lemma DeliveryGivesUpAfterFiftyRetries(cmd: Command, a: Aggregate, rounds: seq<Round>)
    requires cmd.hasHandler && |rounds| == 51 && OvertakenUntil(cmd, a, rounds, 51)
    ensures Consume(cmd, a, rounds) == Delivery(StoreAt(a, rounds, 50), [], GaveUp)
  {
    AllAttemptsOvertaken(cmd, a, rounds);
  }

  /** A command without a handler is answered, if it asks for a reply, and leaves the store alone. */
  lemma MissingHandlerIsAnswered(cmd: Command, a: Aggregate, rounds: seq<Round>)
    requires !cmd.hasHandler && |rounds| == 51
    ensures Consume(cmd, a, rounds) ==
            Delivery(a, if cmd.needReply then [ReplyOut(Some("NoHandlerExists"))] else [], NoHandler)
  {
  }

  // ----- redelivery ----------------------------------------------------------

  function EventsSent(sent: seq<Out>): seq<Event> {
    if sent == [] then []
    else (if sent[0].EventOut? then [sent[0].event] else []) + EventsSent(sent[1..])
  }

  function OthersSent(sent: seq<Out>): seq<Out> {
    if sent == [] then []
    else (if sent[0].EventOut? then [] else [sent[0]]) + OthersSent(sent[1..])
  }

  lemma {:induction false} OutgoingParts(events: seq<Event>, rest: seq<Out>)
    requires forall i :: 0 <= i < |rest| ==> !rest[i].EventOut?
    ensures EventsSent(EventOuts(events) + rest) == events
    ensures OthersSent(EventOuts(events) + rest) == rest
  {
    var sent := EventOuts(events) + rest;
    if events != [] {
      assert sent[1..] == EventOuts(events[1..]) + rest;
      OutgoingParts(events[1..], rest);
    } else {
      assert sent == rest;
      NoEvents(rest);
    }
  }

  lemma {:induction false} NoEvents(rest: seq<Out>)
    requires forall i :: 0 <= i < |rest| ==> !rest[i].EventOut?
    ensures EventsSent(rest) == [] && OthersSent(rest) == rest
  {
    if rest == [] {
    } else {
      NoEvents(rest[1..]);
    }
  }

  lemma SentParts(cmd: Command, bus: Bus, reply: Option<string>)
    ensures EventsSent(Outgoing(cmd, bus, reply)) == bus.events
    ensures OthersSent(Outgoing(cmd, bus, reply)) == SagaOuts(cmd, bus.sagaResult) + ReplyOuts(cmd, reply)
  {
    var rest := SagaOuts(cmd, bus.sagaResult) + ReplyOuts(cmd, reply);
    assert Outgoing(cmd, bus, reply) == EventOuts(bus.events) + rest;
    OutgoingParts(bus.events, rest);
  }

  /** A delivery that committed sent and recorded the content of one and the same request. */
  lemma {:induction false} CommittedDelivery(cmd: Command, a: Aggregate, rounds: seq<Round>) returns (q: AppendRequest)
    requires rounds != [] && Attempt(cmd, a, rounds).ending == Done(Appended)
    ensures var d := Attempt(cmd, a, rounds);
            && cmd.messageId in d.aggregate.records && d.aggregate.records[cmd.messageId] == RecordOf(q)
            && RecordOf(q).aggregateRootEvents == q.aggregateRootEvents
            && EventsSent(d.sent) == q.applicationEvents + q.aggregateRootEvents
            && OthersSent(d.sent) == SagaOuts(cmd, q.sagaResult) + ReplyOuts(cmd, q.result)
    decreases |rounds|
  {
    var s := BeforeCommit(cmd, a, rounds[0]);
    var (s', ending) := Commit(cmd.key, cmd.messageId, s);
    if ending.Completed? {
      q := Request(cmd.messageId, s);
      OnlyAcceptedAppendsChangeTheStore(s.aggregate, q);
      SentParts(cmd, s'.bus, s'.reply);
    } else {
      q := CommittedDelivery(cmd, s'.aggregate, rounds[1..]);
    }
  }

  /** The handler changed one aggregate root at most, which the unit of work demands. */
  predicate OneRootAtMost(round: Round) {
    |ChangedEntries(AllEntries(round.repositories))| <= 1
  }

  /**
   A delivery of a recorded command leaves the store alone. It completes if and only if its handler
   run changed one root at most, and then it replays the record; otherwise the unit of work throws
   before it asks the store, and nothing is sent.
   */
  lemma RedeliveryReplaysRecord(cmd: Command, a: Aggregate, rounds: seq<Round>)
    requires rounds != [] && cmd.messageId in a.records
    ensures var d := Attempt(cmd, a, rounds);
            var record := a.records[cmd.messageId];
            && d.aggregate == Run(a, rounds[0].others)
            && (d.ending.Done? <==> OneRootAtMost(rounds[0]))
            && (!d.ending.Done? ==> d.ending == GaveUp && d.sent == [])
            && (d.ending.Done? ==>
                  && d.ending.outcome.DuplicatelyHandled?
                  && EventsSent(d.sent) == record.aggregateRootEvents + record.applicationEvents
                  && EventsOfCommand(a, cmd.messageId) == Some(EventsSent(d.sent))
                  && OthersSent(d.sent) ==
                     SagaOuts(cmd, Recall(record.sagaResult, BusAfter(cmd, rounds[0]).sagaResult)) +
                     ReplyOuts(cmd, Recall(record.result, ReplyAfter(rounds[0].handler))))
  {
    RecordsNeverChange(a, rounds[0].others);
    var s := BeforeCommit(cmd, a, rounds[0]);
    var (s', _) := Commit(cmd.key, cmd.messageId, s);
    SentParts(cmd, s'.bus, s'.reply);
  }

  lemma {:induction false} DeliveriesKeepRecords(a: Aggregate, calls: seq<Call>, c: string)
    requires forall i :: 0 <= i < |calls| ==> |calls[i].rounds| == RETRY_COUNT + 1
    requires c in a.records
    ensures c in Deliver(a, calls).records && Deliver(a, calls).records[c] == a.records[c]
  {
    DeliveriesAreRuns(a, calls);
    RecordsNeverChange(a, AllRequests(a, calls));
  }

  /**
   A redelivery gives the same outcome. Once a delivery of `cmd` has committed, then after any
   deliveries of any commands, one more delivery of `cmd` leaves the store alone. If its handler run
   changes one root at most, it sends the same events up to order, and the same saga result and
   reply whenever they were not blank; if it changes more, it sends nothing.
   */
  lemma RedeliveryRepeatsTheCommit(cmd: Command, a: Aggregate, first: seq<Round>,
                                   between: seq<Call>, again: seq<Round>)
    requires cmd.hasHandler && |first| == |again| == RETRY_COUNT + 1
    requires forall i :: 0 <= i < |between| ==> |between[i].rounds| == RETRY_COUNT + 1
    requires Consume(cmd, a, first).ending == Done(Appended)
    ensures var d1 := Consume(cmd, a, first);
            var b := Deliver(d1.aggregate, between);
            var d2 := Consume(cmd, b, again);
            && d2.aggregate == Run(b, again[0].others)
            && (d2.ending.Done? <==> OneRootAtMost(again[0])) && (!d2.ending.Done? ==> d2.sent == [])
            && (d2.ending.Done? ==> multiset(EventsSent(d2.sent)) == multiset(EventsSent(d1.sent)))
            && cmd.messageId in d1.aggregate.records
            && var record := d1.aggregate.records[cmd.messageId];
               d2.ending.Done? && (cmd.sagaInfo.None? || !Blank(record.sagaResult)) && (!cmd.needReply || !Blank(record.result))
               ==> OthersSent(d2.sent) == OthersSent(d1.sent)
  {
    var q := CommittedDelivery(cmd, a, first);
    var d1 := Consume(cmd, a, first);
    var b := Deliver(d1.aggregate, between);
    DeliveriesKeepRecords(d1.aggregate, between, cmd.messageId);
    RedeliveryReplaysRecord(cmd, b, again);
    assert multiset(q.applicationEvents + q.aggregateRootEvents) == multiset(q.aggregateRootEvents + q.applicationEvents);
  }

  /** A redelivery that reaches the store with this handler run. */
  ghost predicate Redelivers(again: seq<Round>) {
    |again| == RETRY_COUNT + 1 && OneRootAtMost(again[0])
  }

  /** Besides events, the delivery sent this reply and some saga result. */
  ghost predicate SendsReply(cmd: Command, d: Delivery, reply: Option<string>) {
    exists sagaResult :: OthersSent(d.sent) == SagaOuts(cmd, sagaResult) + ReplyOuts(cmd, reply)
  }

  /** Besides events, the delivery sent this saga result and some reply. */
  ghost predicate SendsSagaResult(cmd: Command, d: Delivery, sagaResult: Option<string>) {
    exists reply :: OthersSent(d.sent) == SagaOuts(cmd, sagaResult) + ReplyOuts(cmd, reply)
  }

  /** The command belongs to a saga that wants to be told its result. */
  predicate AnswersSaga(cmd: Command) {
    cmd.sagaInfo.Some? && !Blank(Some(cmd.sagaInfo.value.sagaId)) && cmd.sagaInfo.value.replyEndPoint != ""
  }

  /** A redelivery whose handler returns normally, with this saga result and reply of its own. */
  function RunningAgain(sagaResult: Option<string>, reply: Option<string>): seq<Round> {
    seq(RETRY_COUNT + 1, _ => Round([], map[], HandlerRun([], [], sagaResult, reply, NoFault), [], []))
  }

  lemma RunningAgainRedelivers(cmd: Command, a: Aggregate, sagaResult: Option<string>, reply: Option<string>)
    requires cmd.hasHandler && cmd.messageId in a.records
    ensures Redelivers(RunningAgain(sagaResult, reply))
    ensures var record := a.records[cmd.messageId];
            OthersSent(Consume(cmd, a, RunningAgain(sagaResult, reply)).sent) ==
            SagaOuts(cmd, Recall(record.sagaResult, sagaResult)) + ReplyOuts(cmd, Recall(record.result, reply))
  {
    RedeliveryReplaysRecord(cmd, a, RunningAgain(sagaResult, reply));
  }

  /**
   All redeliveries of a recorded command repeat the recorded reply, whatever their handler runs
   replied, if and only if a non-blank one was recorded or none is asked for.
   */
  lemma ReplyIsRepeatedIffRecorded(cmd: Command, a: Aggregate)
    requires cmd.hasHandler && cmd.messageId in a.records
    ensures (forall again: seq<Round> :: Redelivers(again) ==> SendsReply(cmd, Consume(cmd, a, again), a.records[cmd.messageId].result))
            <==> (!cmd.needReply || !Blank(a.records[cmd.messageId].result))
  {
    var record := a.records[cmd.messageId];
    if !cmd.needReply || !Blank(record.result) {
      forall again: seq<Round> | Redelivers(again)
        ensures SendsReply(cmd, Consume(cmd, a, again), record.result)
      {
        RedeliveryReplaysRecord(cmd, a, again);
        assert OthersSent(Consume(cmd, a, again).sent) ==
               SagaOuts(cmd, Recall(record.sagaResult, BusAfter(cmd, again[0]).sagaResult)) + ReplyOuts(cmd, record.result);
      }
    } else {
      var own := if record.result == None then Some("x") else None;
      RunningAgainRedelivers(cmd, a, None, own);
      LastIsTheReply(cmd, record.result);
      LastIsTheReply(cmd, own);
      assert !SendsReply(cmd, Consume(cmd, a, RunningAgain(None, own)), record.result);
    }
  }

  lemma LastIsTheReply(cmd: Command, reply: Option<string>)
    requires cmd.needReply
    ensures forall sagaResult :: var sent := SagaOuts(cmd, sagaResult) + ReplyOuts(cmd, reply);
                                 sent[|sent| - 1] == ReplyOut(reply)
  {
  }

  /**
   Likewise all redeliveries repeat the recorded saga result if and only if a non-blank one was
   recorded, or the command has no saga to answer.
   */
  lemma SagaResultIsRepeatedIffRecorded(cmd: Command, a: Aggregate)
    requires cmd.hasHandler && cmd.messageId in a.records
    ensures (forall again: seq<Round> :: Redelivers(again) ==>
               SendsSagaResult(cmd, Consume(cmd, a, again), a.records[cmd.messageId].sagaResult))
            <==> (!AnswersSaga(cmd) || !Blank(a.records[cmd.messageId].sagaResult))
  {
    var record := a.records[cmd.messageId];
    if !AnswersSaga(cmd) || !Blank(record.sagaResult) {
      forall again: seq<Round> | Redelivers(again)
        ensures SendsSagaResult(cmd, Consume(cmd, a, again), record.sagaResult)
      {
        RedeliveryReplaysRecord(cmd, a, again);
        assert OthersSent(Consume(cmd, a, again).sent) ==
               SagaOuts(cmd, record.sagaResult) + ReplyOuts(cmd, Recall(record.result, ReplyAfter(again[0].handler)));
      }
    } else {
      var own := if record.sagaResult == None then Some("x") else None;
      RunningAgainRedelivers(cmd, a, own, None);
      assert |SagaOuts(cmd, record.sagaResult)| != |SagaOuts(cmd, own)|;
      assert !SendsSagaResult(cmd, Consume(cmd, a, RunningAgain(own, None)), record.sagaResult);
    }
  }

  /** The other writers' appends during the attempts of a delivery. */
  ghost function OthersUntilEnd(cmd: Command, a: Aggregate, rounds: seq<Round>): seq<AppendRequest>
    requires rounds != []
    decreases |rounds|
  {
    var (s', ending) := Commit(cmd.key, cmd.messageId, BeforeCommit(cmd, a, rounds[0]));
    if ending.ConcurrencyException? && |rounds| > 1
    then rounds[0].others + OthersUntilEnd(cmd, s'.aggregate, rounds[1..])
    else rounds[0].others
  }

  /**
   Adding an aggregate that is already there leaves the store to the other writers, publishes no
   event of the handler's, and answers both the caller and the saga with the same message.
   */
  lemma {:induction false} DuplicateRootIsAnswered(cmd: Command, a: Aggregate, rounds: seq<Round>)
    requires rounds != []
    requires Attempt(cmd, a, rounds).ending == Done(AddDuplicatedAggregateRoot)
    ensures var d := Attempt(cmd, a, rounds);
            && d.aggregate == Run(a, OthersUntilEnd(cmd, a, rounds)) && cmd.messageId !in d.aggregate.records
            && EventsSent(d.sent) == []
            && OthersSent(d.sent) == SagaOuts(cmd, DuplicateMessage(cmd.key)) + ReplyOuts(cmd, DuplicateMessage(cmd.key))
    decreases |rounds|
  {
    var s := BeforeCommit(cmd, a, rounds[0]);
    var (s', ending) := Commit(cmd.key, cmd.messageId, s);
    OnlyAcceptedAppendsChangeTheStore(s.aggregate, Request(cmd.messageId, s));
    if ending.ConcurrencyException? {
      DuplicateRootIsAnswered(cmd, s'.aggregate, rounds[1..]);
      RunConcat(a, rounds[0].others, OthersUntilEnd(cmd, s'.aggregate, rounds[1..]));
    } else {
      SentParts(cmd, s'.bus, s'.reply);
    }
  }

  /** A delivery that gives up sends nothing, and the command stays unrecorded unless another writer recorded it. */
  lemma {:induction false} GivingUpLeavesNoTrace(cmd: Command, a: Aggregate, rounds: seq<Round>)
    requires rounds != [] && Attempt(cmd, a, rounds).ending == GaveUp
    ensures Attempt(cmd, a, rounds).sent == []
    ensures Attempt(cmd, a, rounds).aggregate == Run(a, OthersUntilEnd(cmd, a, rounds))
    decreases |rounds|
  {
    var s := BeforeCommit(cmd, a, rounds[0]);
    var (s', ending) := Commit(cmd.key, cmd.messageId, s);
    OnlyAcceptedAppendsChangeTheStore(s.aggregate, Request(cmd.messageId, s));
    if ending.ConcurrencyException? && |rounds| > 1 {
      GivingUpLeavesNoTrace(cmd, s'.aggregate, rounds[1..]);
      RunConcat(a, rounds[0].others, OthersUntilEnd(cmd, s'.aggregate, rounds[1..]));
    }
  }

  // ----- reloading after a conflict ------------------------------------------

  function MaxVersion(events: seq<Event>): int
    requires events != []
  {
    if |events| == 1 then events[0].version
    else
      var m := MaxVersion(events[1..]);
      if events[0].version > m then events[0].version else m
  }

  /**
   The version `GetByKeyAsync` loads: the cached one, or else the snapshot's, advanced by
   replaying the events after it in version order.
   */
  function LoadedVersion(cached: Option<int>, snapshot: Option<int>, a: Aggregate): Option<int> {
    if cached.Some? then cached
    else
      var fromVersion := if snapshot.Some? then snapshot.value else 0;
      var events := EventsInRange(a.events, fromVersion + 1, None);
      if events == [] then snapshot else Some(MaxVersion(events))
  }

  /** Every batch is non-empty and its events carry the version they are stored under. */
  ghost predicate Stamped(z: seq<Scored>) {
    forall i :: 0 <= i < |z| ==>
      z[i].batch != [] && forall e :: e in z[i].batch ==> e.version == z[i].score
  }

  /** The stamps an aggregate root puts on its events: an extending request carries some, of the next version. */
  ghost predicate StampedRequests(qs: seq<AppendRequest>) {
    forall i :: 0 <= i < |qs| && qs[i].expectedVersion >= 0 ==>
      qs[i].aggregateRootEvents != [] && forall e :: e in qs[i].aggregateRootEvents ==> e.version == qs[i].expectedVersion + 1
  }

  /** The stream of any run of stamped requests is stamped, and it starts at version 1 or later. */
  lemma RunsAreStamped(qs: seq<AppendRequest>)
    requires DistinctBatches(qs) && StampedRequests(qs)
    ensures Stamped(Run(EMPTY, qs).events) && Contiguous(Run(EMPTY, qs).events)
    ensures Run(EMPTY, qs).events != [] ==> Run(EMPTY, qs).events[0].score >= 1
  {
    var a := Run(EMPTY, qs);
    RunIsSound(qs);
    forall k | 0 <= k < |a.events|
      ensures a.events[k].batch != [] && a.events[k].score >= 1
      ensures forall e :: e in a.events[k].batch ==> e.version == a.events[k].score
    {
      assert WrittenBy(a, qs, a.events[k]);
    }
  }

  lemma {:induction false} MaxIsAMember(events: seq<Event>, v: int)
    requires events != [] && (forall e :: e in events ==> e.version <= v) && (exists e :: e in events && e.version == v)
    ensures MaxVersion(events) == v
  {
    if |events| == 1 {
    } else {
      if e :| e in events[1..] && e.version == v {
        MaxIsAMember(events[1..], v);
      } else {
        MaxBound(events[1..], v);
      }
    }
  }

  lemma {:induction false} MaxBound(events: seq<Event>, v: int)
    requires events != [] && forall e :: e in events ==> e.version <= v
    ensures MaxVersion(events) <= v
  {
    if |events| == 1 {
    } else {
      MaxBound(events[1..], v);
    }
  }

  lemma {:induction false} RangeMembers(z: seq<Scored>, start: int)
    requires Stamped(z) && Contiguous(z) && z != []
    ensures start <= Head(z) ==>
              exists e :: e in EventsInRange(z, start, None) && e.version == Head(z)
    ensures start > Head(z) ==> EventsInRange(z, start, None) == []
    ensures forall e :: e in EventsInRange(z, start, None) ==> e.version <= Head(z)
  {
    if |z| == 1 {
      assert EventsInRange(z[1..], start, None) == [];
      assert z[0].batch[0] in z[0].batch;
    } else {
      var rest := z[1..];
      assert forall i :: 0 <= i < |rest| ==> rest[i] == z[i + 1];
      RangeMembers(rest, start);
    }
  }

  /** Without a cached copy, a load from any snapshot not ahead of the stream reaches the head. */
  lemma LoadReachesHead(snapshot: Option<int>, a: Aggregate)
    requires Stamped(a.events) && Contiguous(a.events) && a.events != [] && a.events[0].score >= 1
    requires snapshot.Some? ==> snapshot.value <= Head(a.events)
    ensures LoadedVersion(None, snapshot, a) == Some(Head(a.events))
  {
    var fromVersion := if snapshot.Some? then snapshot.value else 0;
    RangeMembers(a.events, fromVersion + 1);
    var events := EventsInRange(a.events, fromVersion + 1, None);
    if events != [] {
      MaxIsAMember(events, Head(a.events));
    }
  }

  /** After any run of stamped requests, a load without a cached copy reaches the head of the stream. */
  lemma LoadAfterAnyRunReachesHead(qs: seq<AppendRequest>, snapshot: Option<int>)
    requires DistinctBatches(qs) && StampedRequests(qs) && Run(EMPTY, qs).events != []
    requires snapshot.Some? ==> snapshot.value <= Head(Run(EMPTY, qs).events)
    ensures LoadedVersion(None, snapshot, Run(EMPTY, qs)) == Some(Head(Run(EMPTY, qs).events))
  {
    RunsAreStamped(qs);
    LoadReachesHead(snapshot, Run(EMPTY, qs));
  }

  function CachedVersion(cache: map<string, Root>, id: string): Option<int> {
    if id in cache then Some(cache[id].version) else None
  }

  /**
   A conflict repairs its own cause. The commit that conflicts evicts the stale root and resets
   the repositories, so the next load is at the head, and a retry that no other writer overtakes
   commits.
   */
  lemma UndisturbedRetryCommits(cmd: Command, s: CommitState, snapshot: Option<int>, retry: CommitState)
    requires |Roots(s)| == 1 && Commit(cmd.key, cmd.messageId, s).1 == ConcurrencyException
    requires Stamped(s.aggregate.events) && Contiguous(s.aggregate.events)
    requires s.aggregate.events != [] ==> s.aggregate.events[0].score >= 1
    requires snapshot.Some? && s.aggregate.events != [] ==> snapshot.value <= Head(s.aggregate.events)
    requires retry.aggregate == Commit(cmd.key, cmd.messageId, s).0.aggregate
    requires |Roots(retry)| == 1 && Roots(retry)[0].root.domainEvents != []
    requires Roots(retry)[0].root.id == Roots(s)[0].root.id
    requires Some(Roots(retry)[0].version as int) ==
             LoadedVersion(CachedVersion(Commit(cmd.key, cmd.messageId, s).0.cache, Roots(s)[0].root.id), snapshot, retry.aggregate)
    ensures Commit(cmd.key, cmd.messageId, s).0.repositories == seq(|s.repositories|, _ => [])
    ensures Commit(cmd.key, cmd.messageId, retry).1 == Completed(Appended)
  {
    OnlyAcceptedAppendsChangeTheStore(s.aggregate, Request(cmd.messageId, s));
    LoadReachesHead(snapshot, s.aggregate);
  }

  /**
   A successful commit leaves the cache at the head: when the root moved on by one version, as its
   events are stamped, the next load takes it from the cache at the stream's new head.
   */
  lemma CommitLeavesTheCacheAtTheHead(cmd: Command, s: CommitState, snapshot: Option<int>)
    requires |Roots(s)| == 1 && Commit(cmd.key, cmd.messageId, s).1 == Completed(Appended)
    requires Request(cmd.messageId, s).expectedVersion >= 0
    requires Roots(s)[0].root.version == Roots(s)[0].version + 1
    requires Contiguous(s.aggregate.events) && !Member(s.aggregate.events, Request(cmd.messageId, s).aggregateRootEvents)
    ensures var s' := Commit(cmd.key, cmd.messageId, s).0;
            && s'.aggregate.events != []
            && LoadedVersion(CachedVersion(s'.cache, Roots(s)[0].root.id), snapshot, s'.aggregate) ==
               Some(Head(s'.aggregate.events))
            && forall id :: id != Roots(s)[0].root.id ==> CachedVersion(s'.cache, id) == CachedVersion(s.cache, id)
  {
    var q := Request(cmd.messageId, s);
    OnlyAcceptedAppendsChangeTheStore(s.aggregate, q);
    AcceptedBatchIsAppendedIffFresh(s.aggregate, q);
  }
}
