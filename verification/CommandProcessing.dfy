/**
 Processing one command against the event store: the event bus, and the unit of work that turns
 the store's outcomes into published events and a reply.
 */
module CommandProcessing {
  import opened Wrappers
  import opened EventStore

  // ----- the event bus -------------------------------------------------------

  /** What the event bus holds. */
  datatype Bus = Bus(events: seq<Event>, commands: seq<string>, sagaResult: Option<string>, anyway: seq<Event>)

  const EMPTY_BUS := Bus([], [], None, [])

  class EventBus {
    var eventQueue: seq<Event>
    var commandQueue: seq<string>
    var sagaResult: Option<string>
    var toPublishAnyway: seq<Event>

    constructor ()
      ensures State() == EMPTY_BUS
    {
      eventQueue, commandQueue, sagaResult, toPublishAnyway := [], [], None, [];
    }

    function State(): Bus
      reads this
    {
      Bus(eventQueue, commandQueue, sagaResult, toPublishAnyway)
    }

    method Publish(events: seq<Event>)
      modifies this
      ensures State() == old(State()).(events := old(State()).events + events)
    {
      var i := 0;
      ghost var before := eventQueue;
      while i < |events|
        modifies `eventQueue
        invariant 0 <= i <= |events|
        invariant eventQueue == before + events[..i]
      {
        eventQueue := eventQueue + [events[i]];
        i := i + 1;
      }
      assert events[..i] == events;
    }

    method ClearMessages()
      modifies this
      ensures State() == EMPTY_BUS
    {
      sagaResult, eventQueue, commandQueue, toPublishAnyway := None, [], [], [];
    }

    method FinishSaga(result: Option<string>)
      modifies this
      ensures State() == old(State()).(sagaResult := result)
    {
      sagaResult := result;
    }
  }

  // ----- tracked aggregates --------------------------------------------------

  /** An aggregate root: its current version and the events it raised since it was loaded. */
  datatype Root = Root(id: string, version: nat, domainEvents: seq<Event>)

  /** A repository entry; `version` is the version at load time, 0 for an added root. */
  datatype Entry = Entry(version: nat, root: Root, deleted: bool)

  /** The entry state is Added or Modified. */
  predicate Changed(e: Entry) {
    !e.deleted && (e.version == 0 || e.root.version > e.version)
  }

  function ChangedEntries(entries: seq<Entry>): seq<Entry> {
    if entries == [] then []
    else if Changed(entries[0]) then [entries[0]] + ChangedEntries(entries[1..])
    else ChangedEntries(entries[1..])
  }

  function AllEntries(repositories: seq<seq<Entry>>): seq<Entry> {
    if repositories == [] then [] else repositories[0] + AllEntries(repositories[1..])
  }

  // ----- the unit of work ----------------------------------------------------

  datatype CommitState = CommitState(
    aggregate: Aggregate,
    cache: map<string, Root>,
    repositories: seq<seq<Entry>>,
    bus: Bus,
    reply: Option<string>)

  datatype CommitEnding = Completed(outcome: AppendOutcome) | ConcurrencyException | TooManyRoots

  /** The expected version: the load version of the changed root, or -1 when it raised no event. */
  function ExpectedVersion(roots: seq<Entry>): int {
    if roots == [] || roots[0].root.domainEvents == [] then -1 else roots[0].version
  }

  function AggregateEvents(roots: seq<Entry>): seq<Event> {
    if roots == [] then [] else roots[0].root.domainEvents
  }

  function RequestOf(commandId: string, roots: seq<Entry>, bus: Bus, reply: Option<string>): AppendRequest {
    AppendRequest(ExpectedVersion(roots), commandId, reply, bus.sagaResult, AggregateEvents(roots), bus.events)
  }

  function Roots(s: CommitState): seq<Entry> {
    ChangedEntries(AllEntries(s.repositories))
  }

  function Request(commandId: string, s: CommitState): AppendRequest {
    RequestOf(commandId, Roots(s), s.bus, s.reply)
  }

  function DuplicateMessage(id: string): Option<string> {
    Some("Add duplicated aggregate root with id " + id)
  }

  /** The state that a commit leaves behind after the store gave `outcome`. */
  function After(key: string, commandId: string, s: CommitState, outcome: AppendOutcome): CommitState {
    var roots := Roots(s);
    var q := Request(commandId, s);
    var s' := s.(aggregate := Step(s.aggregate, q));
    match outcome
    case Appended =>
      s'.(cache := if q.expectedVersion >= 0 && roots != [] then s.cache[roots[0].root.id := roots[0].root] else s.cache,
          bus := s.bus.(events := s.bus.events + AggregateEvents(roots)))
    case ConcurrencyConflict =>
      s'.(repositories := seq(|s.repositories|, _ => []),
          cache := if roots != [] then s.cache - {roots[0].root.id} else s.cache)
    case AddDuplicatedAggregateRoot =>
      s'.(bus := EMPTY_BUS.(sagaResult := DuplicateMessage(key)), reply := DuplicateMessage(key))
    case DuplicatelyHandled(result, sagaResult, aggregateEvents, applicationEvents) =>
      s'.(bus := EMPTY_BUS.(events := aggregateEvents + applicationEvents, sagaResult := sagaResult), reply := result)
  }

  function Commit(key: string, commandId: string, s: CommitState): (CommitState, CommitEnding) {
    if |Roots(s)| > 1 then (s, TooManyRoots)
    else
      var outcome := Outcome(s.aggregate, Request(commandId, s));
      (After(key, commandId, s, outcome),
       if outcome.ConcurrencyConflict? then ConcurrencyException else Completed(outcome))
  }

  /** A commit asks the store once, or not at all. */
  lemma CommitStores(key: string, commandId: string, s: CommitState)
    ensures var (s', ending) := Commit(key, commandId, s);
            s'.aggregate == if ending.TooManyRoots? then s.aggregate else Step(s.aggregate, Request(commandId, s))
  {
  }

  // ----- what a commit does, written out --------------------------------------

  /** The entry is deleted, or was loaded and has not moved. */
  predicate Still(e: Entry) {
    e.deleted || (e.version > 0 && e.root.version <= e.version)
  }

  /** All entries of all repositories are deleted or have not moved. */
  ghost predicate AllStill(repositories: seq<seq<Entry>>) {
    forall r, i :: 0 <= r < |repositories| && 0 <= i < |repositories[r]| ==> Still(repositories[r][i])
  }

  /** All entries but one are. */
  ghost predicate OthersStill(repositories: seq<seq<Entry>>, r: nat, i: nat)
    requires r < |repositories| && i < |repositories[r]|
  {
    forall r', i' :: 0 <= r' < |repositories| && 0 <= i' < |repositories[r']| && (r' != r || i' != i) ==>
      Still(repositories[r'][i'])
  }

  lemma {:induction false} ChangedConcat(a: seq<Entry>, b: seq<Entry>)
    ensures ChangedEntries(a + b) == ChangedEntries(a) + ChangedEntries(b)
  {
    if a == [] {
      assert a + b == b;
    } else {
      assert (a + b)[1..] == a[1..] + b;
      ChangedConcat(a[1..], b);
    }
  }

  lemma {:induction false} NoneChanged(entries: seq<Entry>)
    requires forall i :: 0 <= i < |entries| ==> Still(entries[i])
    ensures ChangedEntries(entries) == []
  {
    if entries == [] {
    } else {
      NoneChanged(entries[1..]);
    }
  }

  /** The one entry that moved, or was added, is the only changed one of its repository. */
  lemma {:induction false} OneChanged(entries: seq<Entry>, i: nat)
    requires i < |entries| && !Still(entries[i])
    requires forall k :: 0 <= k < |entries| && k != i ==> Still(entries[k])
    ensures ChangedEntries(entries) == [entries[i]]
  {
    if i == 0 {
      NoneChanged(entries[1..]);
    } else {
      OneChanged(entries[1..], i - 1);
    }
  }

  lemma {:induction false} NoRootChanged(repositories: seq<seq<Entry>>)
    requires AllStill(repositories)
    ensures ChangedEntries(AllEntries(repositories)) == []
  {
    if repositories == [] {
    } else {
      assert forall r :: 0 <= r < |repositories[1..]| ==> repositories[1..][r] == repositories[r + 1];
      NoRootChanged(repositories[1..]);
      NoneChanged(repositories[0]);
      ChangedConcat(repositories[0], AllEntries(repositories[1..]));
    }
  }

  lemma {:induction false} OneRootChanged(repositories: seq<seq<Entry>>, r: nat, i: nat)
    requires r < |repositories| && i < |repositories[r]| && !Still(repositories[r][i]) && OthersStill(repositories, r, i)
    ensures ChangedEntries(AllEntries(repositories)) == [repositories[r][i]]
  {
    var rest := repositories[1..];
    assert forall k :: 0 <= k < |rest| ==> rest[k] == repositories[k + 1];
    ChangedConcat(repositories[0], AllEntries(rest));
    if r == 0 {
      OneChanged(repositories[0], i);
      NoRootChanged(rest);
    } else {
      NoneChanged(repositories[0]);
      OneRootChanged(rest, r - 1, i);
    }
  }

  /**
   A commit of one root that raised events. If the command is not recorded and the root was loaded
   at the head, or the stream is empty, then exactly those events are appended as the next version,
   published behind what the handler published, recorded with its answers, and the root is cached.
   */
  lemma CommitAppendsTheMovedRoot(key: string, commandId: string, s: CommitState, r: nat, i: nat, root: Root, v: nat)
    requires r < |s.repositories| && i < |s.repositories[r]| && OthersStill(s.repositories, r, i)
    requires s.repositories[r][i] == Entry(v, root, false) && (v == 0 || root.version > v) && root.domainEvents != []
    requires commandId !in s.aggregate.records
    requires s.aggregate.events == [] || s.aggregate.events[|s.aggregate.events| - 1].score == v
    requires forall k :: 0 <= k < |s.aggregate.events| ==> s.aggregate.events[k].batch != root.domainEvents
    ensures var (s', ending) := Commit(key, commandId, s);
            && ending == Completed(Appended)
            && s'.aggregate.events == s.aggregate.events + [Scored(v + 1, root.domainEvents)]
            && s'.aggregate.records ==
               s.aggregate.records[commandId := CommandResult(s.reply, s.bus.sagaResult, s.bus.events, root.domainEvents)]
            && s'.bus == s.bus.(events := s.bus.events + root.domainEvents)
            && s'.cache == s.cache[root.id := root]
            && s'.repositories == s.repositories && s'.reply == s.reply
  {
    OneRootChanged(s.repositories, r, i);
    ExtendingAppend(s.aggregate, Request(commandId, s));
  }

  /**
   A commit without a changed root, or of one that raised no event, records the command and its
   answers, and touches neither stream nor bus nor cache.
   */
  lemma CommitWithoutChange(key: string, commandId: string, s: CommitState)
    requires commandId !in s.aggregate.records
    requires AllStill(s.repositories) ||
             exists r, i :: 0 <= r < |s.repositories| && 0 <= i < |s.repositories[r]| && OthersStill(s.repositories, r, i)
                            && !Still(s.repositories[r][i]) && s.repositories[r][i].root.domainEvents == []
    ensures var (s', ending) := Commit(key, commandId, s);
            && ending == Completed(Appended)
            && s'.aggregate.events == s.aggregate.events && s'.bus == s.bus && s'.cache == s.cache
            && s'.aggregate.records ==
               s.aggregate.records[commandId := CommandResult(s.reply, s.bus.sagaResult, s.bus.events, [])]
            && s'.repositories == s.repositories && s'.reply == s.reply
  {
    if AllStill(s.repositories) {
      NoRootChanged(s.repositories);
    } else {
      var r, i :| 0 <= r < |s.repositories| && 0 <= i < |s.repositories[r]| && OthersStill(s.repositories, r, i)
                  && !Still(s.repositories[r][i]) && s.repositories[r][i].root.domainEvents == [];
      OneRootChanged(s.repositories, r, i);
    }
    RecordingAppend(s.aggregate, Request(commandId, s));
    assert s.bus.events + [] == s.bus.events;
  }

  /**
   A commit of one root that raised events on another version than the stream's head stores and
   publishes nothing. A loaded root is a conflict, which resets every repository and forgets the
   cached root; an added one is answered as a duplicate.
   */
  lemma CommitRefusesTheStaleRoot(key: string, commandId: string, s: CommitState, r: nat, i: nat, root: Root, v: nat)
    requires r < |s.repositories| && i < |s.repositories[r]| && OthersStill(s.repositories, r, i)
    requires s.repositories[r][i] == Entry(v, root, false) && (v == 0 || root.version > v) && root.domainEvents != []
    requires commandId !in s.aggregate.records
    requires s.aggregate.events != [] && s.aggregate.events[|s.aggregate.events| - 1].score != v
    ensures var (s', ending) := Commit(key, commandId, s);
            var text := Some("Add duplicated aggregate root with id " + key);
            && s'.aggregate == s.aggregate
            && (v > 0 ==>
                  && ending == ConcurrencyException && s'.bus == s.bus && s'.reply == s.reply
                  && |s'.repositories| == |s.repositories| && (forall k :: 0 <= k < |s'.repositories| ==> s'.repositories[k] == [])
                  && s'.cache == s.cache - {root.id})
            && (v == 0 ==>
                  && ending == Completed(AddDuplicatedAggregateRoot) && s'.cache == s.cache
                  && s'.bus == Bus([], [], text, []) && s'.reply == text && s'.repositories == s.repositories)
  {
    OneRootChanged(s.repositories, r, i);
    RefusedAppend(s.aggregate, Request(commandId, s));
  }

  /**
   A commit of a recorded command, whatever single root it changed, stores nothing and replaces what
   the handler left on the bus: the recorded aggregate events and then the recorded application
   events, with the recorded saga result and reply where they hold more than white space, and the
   handler's own where they do not.
   */
  lemma CommitReplaysTheRecord(key: string, commandId: string, s: CommitState)
    requires commandId in s.aggregate.records
    requires AllStill(s.repositories) || exists r, i :: 0 <= r < |s.repositories| && 0 <= i < |s.repositories[r]|
                                                        && !Still(s.repositories[r][i]) && OthersStill(s.repositories, r, i)
    ensures var (s', ending) := Commit(key, commandId, s);
            var record := s.aggregate.records[commandId];
            && ending.Completed? && ending.outcome.DuplicatelyHandled?
            && s'.aggregate == s.aggregate && s'.cache == s.cache && s'.repositories == s.repositories
            && s'.bus.events == record.aggregateRootEvents + record.applicationEvents
            && s'.bus.commands == [] && s'.bus.anyway == []
            && s'.bus.sagaResult == (if record.sagaResult.Some? && exists c :: c in record.sagaResult.value && c != ' ' && c != '\t' && c != '\n' && c != '\r'
                                     then record.sagaResult else s.bus.sagaResult)
            && s'.reply == (if record.result.Some? && exists c :: c in record.result.value && c != ' ' && c != '\t' && c != '\n' && c != '\r'
                            then record.result else s.reply)
  {
    if AllStill(s.repositories) {
      NoRootChanged(s.repositories);
    } else {
      var r, i :| 0 <= r < |s.repositories| && 0 <= i < |s.repositories[r]|
                  && !Still(s.repositories[r][i]) && OthersStill(s.repositories, r, i);
      OneRootChanged(s.repositories, r, i);
    }
    DuplicatesGiveBackTheRecord(s.aggregate, Request(commandId, s));
  }

  /** A commit of two changed roots changes nothing at all. */
  lemma {:induction false} CommitRefusesTwoRoots(key: string, commandId: string, s: CommitState, r: nat, i: nat, r': nat, i': nat)
    requires r < |s.repositories| && i < |s.repositories[r]| && !Still(s.repositories[r][i])
    requires r' < |s.repositories| && i' < |s.repositories[r']| && !Still(s.repositories[r'][i'])
    requires r < r' || (r == r' && i < i')
    ensures Commit(key, commandId, s) == (s, TooManyRoots)
  {
    TwoRootsChanged(s.repositories, r, i, r', i');
  }

  lemma {:induction false} SomeChanged(entries: seq<Entry>, i: nat)
    requires i < |entries| && !Still(entries[i])
    ensures |ChangedEntries(entries)| >= 1
  {
    if i > 0 {
      SomeChanged(entries[1..], i - 1);
    }
  }

  lemma {:induction false} SomeRootChanged(repositories: seq<seq<Entry>>, r: nat, i: nat)
    requires r < |repositories| && i < |repositories[r]| && !Still(repositories[r][i])
    ensures |ChangedEntries(AllEntries(repositories))| >= 1
  {
    ChangedConcat(repositories[0], AllEntries(repositories[1..]));
    if r == 0 {
      SomeChanged(repositories[0], i);
    } else {
      SomeRootChanged(repositories[1..], r - 1, i);
    }
  }

  lemma {:induction false} TwoChanged(entries: seq<Entry>, i: nat, i': nat)
    requires i < i' < |entries| && !Still(entries[i]) && !Still(entries[i'])
    ensures |ChangedEntries(entries)| >= 2
  {
    if i == 0 {
      SomeChanged(entries[1..], i' - 1);
    } else {
      TwoChanged(entries[1..], i - 1, i' - 1);
    }
  }

  lemma {:induction false} TwoRootsChanged(repositories: seq<seq<Entry>>, r: nat, i: nat, r': nat, i': nat)
    requires r < |repositories| && i < |repositories[r]| && !Still(repositories[r][i])
    requires r' < |repositories| && i' < |repositories[r']| && !Still(repositories[r'][i'])
    requires r < r' || (r == r' && i < i')
    ensures |ChangedEntries(AllEntries(repositories))| >= 2
  {
    ChangedConcat(repositories[0], AllEntries(repositories[1..]));
    if r > 0 {
      TwoRootsChanged(repositories[1..], r - 1, i, r' - 1, i');
    } else if r' == 0 {
      TwoChanged(repositories[0], i, i');
    } else {
      SomeChanged(repositories[0], i);
      SomeRootChanged(repositories[1..], r' - 1, i');
    }
  }

  /** The message context of the command; handlers and the unit of work set the reply. */
  class MessageContext {
    const key: string
    const messageId: string
    var reply: Option<string>

    constructor (key: string, messageId: string)
      ensures this.key == key && this.messageId == messageId && reply == None
    {
      this.key, this.messageId, reply := key, messageId, None;
    }
  }

  /** The process-wide cache of aggregates; a miss is always possible. */
  class InMemoryStore {
    var contents: map<string, Root>

    constructor ()
      ensures contents == map[]
    {
      contents := map[];
    }
  }

  class UnitOfWork {
    const eventStore: RedisEventStore
    const eventBus: EventBus
    const context: MessageContext
    const inMemoryStore: InMemoryStore
    var repositories: seq<seq<Entry>>

    constructor (eventStore: RedisEventStore, eventBus: EventBus, context: MessageContext, inMemoryStore: InMemoryStore)
      ensures this.eventStore == eventStore && this.eventBus == eventBus
      ensures this.context == context && this.inMemoryStore == inMemoryStore && repositories == []
    {
      this.eventStore, this.eventBus := eventStore, eventBus;
      this.context, this.inMemoryStore, repositories := context, inMemoryStore, [];
    }

    function State(): CommitState
      reads this, eventStore, eventBus, context, inMemoryStore
    {
      CommitState(eventStore.AggregateOf(context.key), inMemoryStore.contents, repositories,
                  eventBus.State(), context.reply)
    }

    method Rollback()
      modifies this
      ensures repositories == seq(|old(repositories)|, _ => [])
    {
      var i := 0;
      ghost var before := repositories;
      while i < |repositories|
        modifies this
        invariant 0 <= i <= |repositories| == |before|
        invariant forall k :: 0 <= k < i ==> repositories[k] == []
      {
        repositories := repositories[i := []];
        i := i + 1;
      }
    }

    /** The normal path after the append: cache the root and publish its events. */
    method PublishCommitted(roots: seq<Entry>, expectedVersion: int)
      modifies eventBus, inMemoryStore
      ensures inMemoryStore.contents == if expectedVersion >= 0 && roots != []
                                        then old(inMemoryStore.contents)[roots[0].root.id := roots[0].root]
                                        else old(inMemoryStore.contents)
      ensures eventBus.State() ==
              old(eventBus.State()).(events := old(eventBus.State()).events + AggregateEvents(roots))
    {
      if expectedVersion >= 0 && roots != [] {
        inMemoryStore.contents := inMemoryStore.contents[roots[0].root.id := roots[0].root];
      }
      eventBus.Publish(AggregateEvents(roots));
    }

    /** The handler of `DBConcurrencyException`. */
    method Discard(roots: seq<Entry>)
      modifies this, inMemoryStore
      ensures repositories == seq(|old(repositories)|, _ => [])
      ensures inMemoryStore.contents == if roots != [] then old(inMemoryStore.contents) - {roots[0].root.id}
                                        else old(inMemoryStore.contents)
    {
      Rollback();
      if roots != [] {
        inMemoryStore.contents := inMemoryStore.contents - {roots[0].root.id};
      }
    }

    /** The handler of `AddDuplicatedAggregateRoot`. */
    method ReplyDuplicatedRoot()
      modifies eventBus, context
      ensures eventBus.State() == EMPTY_BUS.(sagaResult := DuplicateMessage(context.key))
      ensures context.reply == DuplicateMessage(context.key)
    {
      eventBus.ClearMessages();
      context.reply := DuplicateMessage(context.key);
      eventBus.FinishSaga(DuplicateMessage(context.key));
    }

    /** The handler of `MessageDuplicatelyHandled`: publish what the first handling recorded. */
    method ReplayRecorded(result: Option<string>, sagaResult: Option<string>,
                          aggregateEvents: seq<Event>, applicationEvents: seq<Event>)
      modifies eventBus, context
      ensures eventBus.State() == EMPTY_BUS.(events := aggregateEvents + applicationEvents, sagaResult := sagaResult)
      ensures context.reply == result
    {
      eventBus.ClearMessages();
      if |aggregateEvents| > 0 {
        eventBus.Publish(aggregateEvents);
      }
      if |applicationEvents| > 0 {
        eventBus.Publish(applicationEvents);
      }
      context.reply := result;
      if sagaResult.Some? {
        eventBus.FinishSaga(sagaResult);
      }
    }

    method CommitAsync() returns (ending: CommitEnding)
      modifies this, eventStore, eventBus, context, inMemoryStore
      ensures State() == Commit(context.key, context.messageId, old(State())).0
      ensures ending == Commit(context.key, context.messageId, old(State())).1
      ensures forall id :: id != context.key ==> eventStore.AggregateOf(id) == old(eventStore.AggregateOf(id))
    {
      var roots := ChangedEntries(AllEntries(repositories));
      if |roots| > 1 {
        return TooManyRoots;
      }
      var q := RequestOf(context.messageId, roots, eventBus.State(), context.reply);
      var outcome := eventStore.AppendEvents(context.key, q);
      match outcome {
        case Appended =>
          PublishCommitted(roots, q.expectedVersion);
        case ConcurrencyConflict =>
          Discard(roots);
          return ConcurrencyException;
        case AddDuplicatedAggregateRoot =>
          ReplyDuplicatedRoot();
        case DuplicatelyHandled(result, sagaResult, aggregateEvents, applicationEvents) =>
          ReplayRecorded(result, sagaResult, aggregateEvents, applicationEvents);
      }
      return Completed(outcome);
    }
  }
}
