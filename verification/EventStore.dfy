/**
 The Redis event store: the append and read scripts, the C# methods around them, and
 what every interleaving of appends on one aggregate keeps.

 Payloads are kept as the objects they encode. An array that is null or empty is `[]`,
 because both are stored as a null payload array; a null object is `None`.
 */
module EventStore {
  import opened Wrappers

  /** An event with its unique id and the aggregate version stamped on it. */
  datatype Event = Event(id: string, version: int)

  /** The record stored for a command under `ag:{id}:commandId`. */
  datatype CommandResult = CommandResult(
    result: Option<string>,
    sagaResult: Option<string>,
    applicationEvents: seq<Event>,
    aggregateRootEvents: seq<Event>)

  /** A member of the sorted set `ag:{id}:events` with its score. */
  datatype Scored = Scored(score: int, batch: seq<Event>)

  /** All the keys that share the hash tag of one aggregate id. */
  datatype Aggregate = Aggregate(records: map<string, CommandResult>, events: seq<Scored>)

  const EMPTY := Aggregate(map[], [])

  datatype AppendRequest = AppendRequest(
    expectedVersion: int,
    commandId: string,
    result: Option<string>,
    sagaResult: Option<string>,
    aggregateRootEvents: seq<Event>,
    applicationEvents: seq<Event>)

  /** What the append script returns: the found record, nothing, or a number. */
  datatype ScriptReply = Found(record: CommandResult) | Nil | Number(n: int)

  /** How `AppendEvents` ends: normally, or by one of its three exceptions. */
  datatype AppendOutcome =
    | Appended
    | DuplicatelyHandled(result: Option<string>, sagaResult: Option<string>,
                         aggregateRootEvents: seq<Event>, applicationEvents: seq<Event>)
    | AddDuplicatedAggregateRoot
    | ConcurrencyConflict

  // ----- the sorted set ------------------------------------------------------

  function Drop(z: seq<Scored>, batch: seq<Event>): seq<Scored> {
    if z == [] then []
    else if z[0].batch == batch then Drop(z[1..], batch)
    else [z[0]] + Drop(z[1..], batch)
  }

  function Insert(z: seq<Scored>, e: Scored): seq<Scored> {
    if z == [] || z[|z| - 1].score <= e.score then z + [e]
    else Insert(z[..|z| - 1], e) + [z[|z| - 1]]
  }

  /** `ZADD`: members are unique, so adding one again moves it to its new score. */
  function ZAdd(z: seq<Scored>, score: int, batch: seq<Event>): seq<Scored> {
    Insert(Drop(z, batch), Scored(score, batch))
  }

  /** The highest score, which is what `ZREVRANGE 0 0 WITHSCORES` reads. */
  function Head(z: seq<Scored>): int
    requires z != []
  {
    z[|z| - 1].score
  }

  ghost predicate Member(z: seq<Scored>, batch: seq<Event>) {
    exists i :: 0 <= i < |z| && z[i].batch == batch
  }

  // ----- the script and its caller -------------------------------------------

  /** The record written for `q`; the script adds the aggregate events only when it extends the stream. */
  function RecordOf(q: AppendRequest): CommandResult {
    CommandResult(q.result, q.sagaResult, q.applicationEvents,
                  if q.expectedVersion < 0 then [] else q.aggregateRootEvents)
  }

  function Script(a: Aggregate, q: AppendRequest): (Aggregate, ScriptReply) {
    if q.commandId in a.records then
      (a, Found(a.records[q.commandId]))
    else if q.expectedVersion < 0 then
      (a.(records := a.records[q.commandId := RecordOf(q)]), Nil)
    else if a.events == [] || Head(a.events) == q.expectedVersion then
      (Aggregate(a.records[q.commandId := RecordOf(q)],
                 ZAdd(a.events, q.expectedVersion + 1, q.aggregateRootEvents)),
       Number(q.expectedVersion + 1))
    else
      (a, Number(-2))
  }

  /** `string.IsNullOrWhiteSpace` on a stored payload. */
  predicate Blank(payload: Option<string>) {
    payload.None? || forall c :: c in payload.value ==> c in {' ', '\t', '\n', '\r'}
  }

  /** A recorded payload replaces the caller's value only when it is not blank. */
  function Recall(recorded: Option<string>, own: Option<string>): Option<string> {
    if Blank(recorded) then own else recorded
  }

  function Interpret(q: AppendRequest, reply: ScriptReply): AppendOutcome {
    match reply
    case Found(record) =>
      DuplicatelyHandled(Recall(record.result, q.result), Recall(record.sagaResult, q.sagaResult),
                         record.aggregateRootEvents, record.applicationEvents)
    case Nil => Appended
    case Number(n) =>
      if n != -2 then Appended
      else if q.expectedVersion == 0 then AddDuplicatedAggregateRoot
      else ConcurrencyConflict
  }

  function Step(a: Aggregate, q: AppendRequest): Aggregate {
    Script(a, q).0
  }

  function Outcome(a: Aggregate, q: AppendRequest): AppendOutcome {
    Interpret(q, Script(a, q).1)
  }

  /** The store as the C# object that owns the connection. */
  class RedisEventStore {
    var aggregates: map<string, Aggregate>

    constructor ()
      ensures forall id :: AggregateOf(id) == EMPTY
    {
      aggregates := map[];
    }

    function AggregateOf(id: string): Aggregate
      reads this
    {
      if id in aggregates then aggregates[id] else EMPTY
    }

    /** The append script, one atomic step. */
    method RunAppendScript(id: string, q: AppendRequest) returns (reply: ScriptReply)
      modifies this
      ensures AggregateOf(id) == Step(old(AggregateOf(id)), q)
      ensures reply == Script(old(AggregateOf(id)), q).1
      ensures forall other :: other != id ==> AggregateOf(other) == old(AggregateOf(other))
    {
      var a := AggregateOf(id);
      if q.commandId in a.records {
        return Found(a.records[q.commandId]);
      }
      var records := a.records[q.commandId := CommandResult(q.result, q.sagaResult, q.applicationEvents, [])];
      if q.expectedVersion < 0 {
        aggregates := aggregates[id := Aggregate(records, a.events)];
        return Nil;
      }
      if a.events == [] || Head(a.events) == q.expectedVersion {
        var newVersion := q.expectedVersion + 1;
        records := records[q.commandId := records[q.commandId].(aggregateRootEvents := q.aggregateRootEvents)];
        assert records == a.records[q.commandId := RecordOf(q)];
        aggregates := aggregates[id := Aggregate(records, ZAdd(a.events, newVersion, q.aggregateRootEvents))];
        return Number(newVersion);
      }
      return Number(-2);
    }

    method AppendEvents(id: string, q: AppendRequest) returns (outcome: AppendOutcome)
      modifies this
      ensures AggregateOf(id) == Step(old(AggregateOf(id)), q)
      ensures outcome == Outcome(old(AggregateOf(id)), q)
      ensures forall other :: other != id ==> AggregateOf(other) == old(AggregateOf(other))
    {
      var reply := RunAppendScript(id, q);
      if reply.Found? {
        var result, sagaResult := q.result, q.sagaResult;
        if !Blank(reply.record.result) {
          result := reply.record.result;
        }
        if !Blank(reply.record.sagaResult) {
          sagaResult := reply.record.sagaResult;
        }
        return DuplicatelyHandled(result, sagaResult, reply.record.aggregateRootEvents, reply.record.applicationEvents);
      }
      if reply == Number(-2) {
        return if q.expectedVersion == 0 then AddDuplicatedAggregateRoot else ConcurrencyConflict;
      }
      return Appended;
    }
  }

  // ----- reading -------------------------------------------------------------

  /** The events of all members whose score lies in `start..end`, in score order. */
  function EventsInRange(z: seq<Scored>, start: int, end: Option<int>): seq<Event> {
    if z == [] then []
    else if start <= z[0].score && (end.None? || z[0].score <= end.value) then z[0].batch + EventsInRange(z[1..], start, end)
    else EventsInRange(z[1..], start, end)
  }

  function Concat(batches: seq<Scored>): seq<Event> {
    if batches == [] then [] else batches[0].batch + Concat(batches[1..])
  }

  /** `GetEvents` by command id; a missing record ends in a null reference. */
  function EventsOfCommand(a: Aggregate, commandId: string): Option<seq<Event>> {
    if commandId !in a.records then None
    else Some(a.records[commandId].aggregateRootEvents + a.records[commandId].applicationEvents)
  }

  // ----- one step ------------------------------------------------------------

  /** `q` passes the dedup check and the version check of a stream-extending append. */
  predicate Extends(a: Aggregate, q: AppendRequest) {
    && q.commandId !in a.records
    && q.expectedVersion >= 0
    && (a.events == [] || Head(a.events) == q.expectedVersion)
  }

  /** The store changes exactly when the append succeeds, and each refusal has one cause. */
  lemma OnlyAcceptedAppendsChangeTheStore(a: Aggregate, q: AppendRequest)
    ensures Step(a, q) != a <==> Outcome(a, q).Appended?
    ensures Outcome(a, q).Appended? <==>
              q.commandId !in a.records && (q.expectedVersion < 0 || Extends(a, q))
    ensures Outcome(a, q).DuplicatelyHandled? <==> q.commandId in a.records
    ensures Outcome(a, q).AddDuplicatedAggregateRoot? ==> q.expectedVersion == 0
    ensures Outcome(a, q).ConcurrencyConflict? ==> q.expectedVersion > 0 && a.events != []
    ensures q.expectedVersion < 0 ==> Step(a, q).events == a.events
  {
    if q.commandId !in a.records {
      assert q.commandId in a.records[q.commandId := RecordOf(q)];
    }
  }

  /**
   A duplicate gives back what was recorded: all events, and each payload that holds at least one
   character other than white space, whatever the caller brings. A payload that is null or holds
   white space only leaves the caller's own value.
   */
  lemma DuplicatesGiveBackTheRecord(a: Aggregate, q: AppendRequest)
    requires q.commandId in a.records
    ensures Step(a, q) == a && Outcome(a, q).DuplicatelyHandled?
    ensures Outcome(a, q).aggregateRootEvents == a.records[q.commandId].aggregateRootEvents
    ensures Outcome(a, q).applicationEvents == a.records[q.commandId].applicationEvents
    ensures var recorded := a.records[q.commandId].result;
            if recorded.Some? && exists c :: c in recorded.value && c != ' ' && c != '\t' && c != '\n' && c != '\r'
            then Outcome(a, q).result == recorded else Outcome(a, q).result == q.result
    ensures var recorded := a.records[q.commandId].sagaResult;
            if recorded.Some? && exists c :: c in recorded.value && c != ' ' && c != '\t' && c != '\n' && c != '\r'
            then Outcome(a, q).sagaResult == recorded else Outcome(a, q).sagaResult == q.sagaResult
  {
  }

  /** An append that extends the stream leaves all that the command brought in the record and in the stream. */
  lemma ExtendingAppend(a: Aggregate, q: AppendRequest)
    requires q.commandId !in a.records && q.expectedVersion >= 0
    requires a.events == [] || a.events[|a.events| - 1].score == q.expectedVersion
    requires forall i :: 0 <= i < |a.events| ==> a.events[i].batch != q.aggregateRootEvents
    ensures Outcome(a, q) == Appended
    ensures Step(a, q).events == a.events + [Scored(q.expectedVersion + 1, q.aggregateRootEvents)]
    ensures Step(a, q).records ==
            a.records[q.commandId := CommandResult(q.result, q.sagaResult, q.applicationEvents, q.aggregateRootEvents)]
  {
    DropAbsent(a.events, q.aggregateRootEvents);
  }

  /** An append with a negative expected version is recorded without aggregate events and leaves the stream alone. */
  lemma RecordingAppend(a: Aggregate, q: AppendRequest)
    requires q.commandId !in a.records && q.expectedVersion < 0
    ensures Outcome(a, q) == Appended && Step(a, q).events == a.events
    ensures Step(a, q).records == a.records[q.commandId := CommandResult(q.result, q.sagaResult, q.applicationEvents, [])]
  {
  }

  /** An append built on another version than the head's is refused, as a duplicate root if it expected none. */
  lemma RefusedAppend(a: Aggregate, q: AppendRequest)
    requires q.commandId !in a.records && q.expectedVersion >= 0
    requires a.events != [] && a.events[|a.events| - 1].score != q.expectedVersion
    ensures Step(a, q) == a
    ensures Outcome(a, q) == if q.expectedVersion == 0 then AddDuplicatedAggregateRoot else ConcurrencyConflict
  {
  }

  /**
   An accepted batch that the stream already holds leaves its old place for the new version at the
   end; the batches around it keep their places.
   */
  lemma KnownBatchMoves(a: Aggregate, q: AppendRequest, before: seq<Scored>, known: Scored, behind: seq<Scored>)
    requires q.commandId !in a.records && a.events == before + [known] + behind
    requires q.expectedVersion >= 0 && a.events[|a.events| - 1].score == q.expectedVersion
    requires known.batch == q.aggregateRootEvents
    requires !Member(before, q.aggregateRootEvents) && !Member(behind, q.aggregateRootEvents)
    requires before + behind != [] ==> (before + behind)[|before + behind| - 1].score <= q.expectedVersion
    ensures Outcome(a, q) == Appended
    ensures Step(a, q).events == before + behind + [Scored(q.expectedVersion + 1, q.aggregateRootEvents)]
  {
    DropTakesOne(before, known, behind);
  }

  lemma DropTakesOne(before: seq<Scored>, known: Scored, behind: seq<Scored>)
    requires !Member(before, known.batch) && !Member(behind, known.batch)
    ensures Drop(before + [known] + behind, known.batch) == before + behind
  {
    DropConcat(before + [known], behind, known.batch);
    DropConcat(before, [known], known.batch);
    DropAbsent(before, known.batch);
    DropAbsent(behind, known.batch);
    assert Drop([known], known.batch) == [] by {
      assert [known][1..] == [];
    }
    assert before + [] == before;
  }

  lemma {:induction false} DropConcat(y: seq<Scored>, z: seq<Scored>, batch: seq<Event>)
    ensures Drop(y + z, batch) == Drop(y, batch) + Drop(z, batch)
  {
    if y == [] {
      assert y + z == z;
    } else {
      assert (y + z)[1..] == y[1..] + z;
      DropConcat(y[1..], z, batch);
    }
  }

  ghost predicate Contiguous(z: seq<Scored>) {
    forall i :: 0 <= i < |z| ==> z[i].score == z[0].score + i
  }

  lemma {:induction false} DropAbsent(z: seq<Scored>, batch: seq<Event>)
    ensures |Drop(z, batch)| <= |z|
    ensures Member(z, batch) ==> |Drop(z, batch)| < |z|
    ensures !Member(z, batch) ==> Drop(z, batch) == z
  {
    if z == [] {
    } else {
      DropAbsent(z[1..], batch);
      if z[0].batch != batch && Member(z, batch) {
        var i :| 0 <= i < |z| && z[i].batch == batch;
        assert z[1..][i - 1].batch == batch;
      }
      if !Member(z, batch) {
        assert forall i :: 0 <= i < |z[1..]| ==> z[1..][i] == z[i + 1];
        assert !Member(z[1..], batch);
      }
    }
  }

  lemma {:induction false} InsertAddsOne(z: seq<Scored>, e: Scored)
    ensures |Insert(z, e)| == |z| + 1
  {
    if z == [] || z[|z| - 1].score <= e.score {
    } else {
      InsertAddsOne(z[..|z| - 1], e);
    }
  }

  /**
   `ZADD` has set semantics, so an accepted batch lands at the end of the stream, leaving
   every earlier batch in place, if and only if it is not already a member. A batch that is
   one is moved instead, and the stream does not grow.
   */
  lemma AcceptedBatchIsAppendedIffFresh(a: Aggregate, q: AppendRequest)
    requires Contiguous(a.events) && Extends(a, q)
    ensures Step(a, q).events == a.events + [Scored(q.expectedVersion + 1, q.aggregateRootEvents)]
            <==> !Member(a.events, q.aggregateRootEvents)
    ensures Member(a.events, q.aggregateRootEvents) ==> |Step(a, q).events| <= |a.events|
  {
    DropAbsent(a.events, q.aggregateRootEvents);
    InsertAddsOne(Drop(a.events, q.aggregateRootEvents), Scored(q.expectedVersion + 1, q.aggregateRootEvents));
  }

  // ----- runs ----------------------------------------------------------------

  /** Any interleaving of the appends of any number of writers on one aggregate. */
  ghost function Run(a: Aggregate, qs: seq<AppendRequest>): Aggregate {
    if qs == [] then a else Step(Run(a, qs[..|qs| - 1]), qs[|qs| - 1])
  }

  lemma RunOneMore(a: Aggregate, qs: seq<AppendRequest>, q: AppendRequest)
    ensures Run(a, qs + [q]) == Step(Run(a, qs), q)
  {
    assert (qs + [q])[..|qs|] == qs;
  }

  lemma {:induction false} RunConcat(a: Aggregate, ps: seq<AppendRequest>, qs: seq<AppendRequest>)
    ensures Run(a, ps + qs) == Run(Run(a, ps), qs)
  {
    if qs == [] {
      assert ps + qs == ps;
    } else {
      assert (ps + qs)[..|ps + qs| - 1] == ps + qs[..|qs| - 1];
      RunConcat(a, ps, qs[..|qs| - 1]);
    }
  }

  /** A command's record is written once and never changes, whatever follows. */
  lemma {:induction false} RecordsNeverChange(a: Aggregate, qs: seq<AppendRequest>)
    ensures a.records.Keys <= Run(a, qs).records.Keys
    ensures forall c :: c in a.records ==> Run(a, qs).records[c] == a.records[c]
  {
    if qs == [] {
    } else {
      RecordsNeverChange(a, qs[..|qs| - 1]);
    }
  }

  /** Whatever follows an accepted append, the command's events are read back by its id: the aggregate's, then the application's. */
  lemma RecordedEventsAreReadBack(a: Aggregate, q: AppendRequest, later: seq<AppendRequest>)
    requires Outcome(a, q) == Appended
    ensures EventsOfCommand(Run(Step(a, q), later), q.commandId) ==
            Some(if q.expectedVersion < 0 then q.applicationEvents else q.aggregateRootEvents + q.applicationEvents)
  {
    RecordsNeverChange(Step(a, q), later);
    assert [] + q.applicationEvents == q.applicationEvents;
  }

  /** Batches carry unique event ids, so different commands have different batches. */
  ghost predicate DistinctBatches(qs: seq<AppendRequest>) {
    forall i, j :: 0 <= i < |qs| && 0 <= j < |qs| && qs[i].commandId != qs[j].commandId
                   && qs[i].expectedVersion >= 0 && qs[j].expectedVersion >= 0
                   ==> qs[i].aggregateRootEvents != qs[j].aggregateRootEvents
  }

  lemma PrefixDistinct(qs: seq<AppendRequest>, i: nat)
    requires i <= |qs| && DistinctBatches(qs)
    ensures DistinctBatches(qs[..i])
  {
  }

  /** The batches accepted along a run from the empty aggregate, in order. */
  ghost function Accepted(qs: seq<AppendRequest>): seq<Scored> {
    if qs == [] then []
    else
      var q := qs[|qs| - 1];
      Accepted(qs[..|qs| - 1]) +
      (if Extends(Run(EMPTY, qs[..|qs| - 1]), q) then [Scored(q.expectedVersion + 1, q.aggregateRootEvents)] else [])
  }

  /** Record `c` of `a` was written by a request of the run. */
  ghost predicate RecordedBy(qs: seq<AppendRequest>, c: string, record: CommandResult) {
    exists i :: 0 <= i < |qs| && qs[i].commandId == c && record == RecordOf(qs[i])
  }

  /** A stream entry was written by a request of the run that is recorded in `a`. */
  ghost predicate WrittenBy(a: Aggregate, qs: seq<AppendRequest>, e: Scored) {
    exists i :: 0 <= i < |qs| && qs[i].commandId in a.records && qs[i].expectedVersion >= 0
                && e == Scored(qs[i].expectedVersion + 1, qs[i].aggregateRootEvents)
  }

  /** Every record and every stream entry was put there by a request of the run. */
  ghost predicate Provenance(a: Aggregate, qs: seq<AppendRequest>) {
    && (forall c :: c in a.records ==> RecordedBy(qs, c, a.records[c]))
    && (forall k :: 0 <= k < |a.events| ==> WrittenBy(a, qs, a.events[k]))
  }

  /** Nothing in the store is invented, and the scores are contiguous from the first accepted append on. */
  lemma {:induction false} RunIsSound(qs: seq<AppendRequest>)
    requires DistinctBatches(qs)
    ensures Provenance(Run(EMPTY, qs), qs) && Contiguous(Run(EMPTY, qs).events)
  {
    if qs == [] {
    } else {
      var front, q := qs[..|qs| - 1], qs[|qs| - 1];
      assert front + [q] == qs;
      PrefixDistinct(qs, |qs| - 1);
      RunIsSound(front);
      StreamStep(Run(EMPTY, front), front, q);
      ProvenanceStep(Run(EMPTY, front), front, q);
    }
  }

  /** The stream is the concatenation of the accepted batches in version order, with contiguous scores. */
  lemma {:induction false} StreamIsAcceptedBatches(qs: seq<AppendRequest>)
    requires DistinctBatches(qs)
    ensures Run(EMPTY, qs).events == Accepted(qs) && Contiguous(Accepted(qs))
  {
    if qs == [] {
    } else {
      var front, q := qs[..|qs| - 1], qs[|qs| - 1];
      PrefixDistinct(qs, |qs| - 1);
      StreamIsAcceptedBatches(front);
      assert front + [q] == qs;
      OneMoreRequest(front, q);
    }
  }

  lemma OneMoreRequest(front: seq<AppendRequest>, q: AppendRequest)
    requires DistinctBatches(front) && DistinctBatches(front + [q])
    requires Contiguous(Run(EMPTY, front).events)
    ensures Contiguous(Step(Run(EMPTY, front), q).events)
    ensures Step(Run(EMPTY, front), q).events == Run(EMPTY, front).events
              + (if Extends(Run(EMPTY, front), q) then [Scored(q.expectedVersion + 1, q.aggregateRootEvents)] else [])
  {
    RunIsSound(front);
    StreamStep(Run(EMPTY, front), front, q);
  }

  /** One request appends its batch to a contiguous stream, or leaves the stream alone. */
  lemma StreamStep(a: Aggregate, front: seq<AppendRequest>, q: AppendRequest)
    requires DistinctBatches(front + [q]) && Provenance(a, front) && Contiguous(a.events)
    ensures Step(a, q).events ==
            a.events + (if Extends(a, q) then [Scored(q.expectedVersion + 1, q.aggregateRootEvents)] else [])
    ensures Contiguous(Step(a, q).events)
  {
    if Extends(a, q) {
      FreshBatch(a, front, q);
      AcceptedBatchIsAppendedIffFresh(a, q);
    }
  }

  lemma FreshBatch(a: Aggregate, front: seq<AppendRequest>, q: AppendRequest)
    requires DistinctBatches(front + [q]) && Provenance(a, front) && Extends(a, q)
    ensures !Member(a.events, q.aggregateRootEvents)
  {
    var qs := front + [q];
    forall k | 0 <= k < |a.events|
      ensures a.events[k].batch != q.aggregateRootEvents
    {
      assert WrittenBy(a, front, a.events[k]);
      var i :| 0 <= i < |front| && front[i].commandId in a.records && front[i].expectedVersion >= 0
               && a.events[k] == Scored(front[i].expectedVersion + 1, front[i].aggregateRootEvents);
      assert qs[i] == front[i] && qs[|front|] == q;
    }
  }

  lemma ProvenanceStep(a: Aggregate, front: seq<AppendRequest>, q: AppendRequest)
    requires Provenance(a, front)
    requires Extends(a, q) ==>
               Step(a, q).events == a.events + [Scored(q.expectedVersion + 1, q.aggregateRootEvents)]
    ensures Provenance(Step(a, q), front + [q])
  {
    var qs := front + [q];
    var b := Step(a, q);
    assert qs[|front|] == q;
    forall c | c in b.records
      ensures RecordedBy(qs, c, b.records[c])
    {
      if c in a.records {
        RecordedLater(front, q, c, a.records[c]);
      }
    }
    forall k | 0 <= k < |b.events|
      ensures WrittenBy(b, qs, b.events[k])
    {
      if k < |a.events| {
        WrittenLater(a, b, front, q, a.events[k]);
      }
    }
  }

  lemma RecordedLater(front: seq<AppendRequest>, q: AppendRequest, c: string, record: CommandResult)
    requires RecordedBy(front, c, record)
    ensures RecordedBy(front + [q], c, record)
  {
    var i :| 0 <= i < |front| && front[i].commandId == c && record == RecordOf(front[i]);
    assert (front + [q])[i] == front[i];
  }

  lemma WrittenLater(a: Aggregate, b: Aggregate, front: seq<AppendRequest>, q: AppendRequest, e: Scored)
    requires WrittenBy(a, front, e) && a.records.Keys <= b.records.Keys
    ensures WrittenBy(b, front + [q], e)
  {
    var i :| 0 <= i < |front| && front[i].commandId in a.records && front[i].expectedVersion >= 0
             && e == Scored(front[i].expectedVersion + 1, front[i].aggregateRootEvents);
    assert (front + [q])[i] == front[i];
  }

  // ----- no lost update ------------------------------------------------------

  /** The `i`-th request of the run is accepted as an extension of the stream. */
  ghost predicate ExtendsAt(qs: seq<AppendRequest>, i: nat)
    requires i < |qs|
  {
    Extends(Run(EMPTY, qs[..i]), qs[i])
  }

  lemma {:induction false} StreamOnlyGrows(qs: seq<AppendRequest>, i: nat, j: nat)
    requires i <= j <= |qs|
    ensures Accepted(qs[..i]) <= Accepted(qs[..j])
    decreases j
  {
    if i == j {
    } else {
      assert qs[..j][..j - 1] == qs[..j - 1];
      StreamOnlyGrows(qs, i, j - 1);
    }
  }

  /**
   Of two accepted stream-extending commits the later one was built on a strictly higher
   version: no two commits built on one version both succeed, and none is overwritten.
   */
  lemma NoLostUpdate(qs: seq<AppendRequest>, i: nat, j: nat)
    requires DistinctBatches(qs) && i < j < |qs|
    requires ExtendsAt(qs, i) && ExtendsAt(qs, j)
    ensures qs[i].expectedVersion < qs[j].expectedVersion
  {
    var upTo := qs[..i + 1];
    assert upTo[..i] == qs[..i];
    PrefixDistinct(qs, j);
    StreamIsAcceptedBatches(qs[..j]);
    StreamOnlyGrows(qs, i + 1, j);
    var n := |Accepted(qs[..i])|;
    assert Accepted(qs[..j])[n].score == qs[i].expectedVersion + 1;
  }

  /** A command that is still unrecorded when its turn comes and expects version `v`. */
  ghost predicate Candidate(qs: seq<AppendRequest>, k: nat, v: int)
    requires k < |qs|
  {
    qs[k].expectedVersion == v && qs[k].commandId !in Run(EMPTY, qs[..k]).records
  }

  /** Until a candidate for the head version comes, the head stays. */
  lemma {:induction false} HeadStays(qs: seq<AppendRequest>, i: nat, j: nat)
    requires i <= j <= |qs| && DistinctBatches(qs)
    requires Run(EMPTY, qs[..i]).events != []
    requires forall k :: i <= k < j ==> !Candidate(qs, k, Head(Run(EMPTY, qs[..i]).events))
    ensures Run(EMPTY, qs[..j]).events == Run(EMPTY, qs[..i]).events
    decreases j
  {
    if i == j {
    } else {
      HeadStays(qs, i, j - 1);
      assert qs[..j][..j - 1] == qs[..j - 1];
      assert !Candidate(qs, j - 1, Head(Run(EMPTY, qs[..i]).events));
    }
  }

  /**
   Of all commits built on the current head, exactly one extends the stream: the first one
   whose command is not recorded when it runs.
   */
  lemma {:induction false} ExactlyOneCommitPerVersion(qs: seq<AppendRequest>, i: nat, k: nat, v: nat)
    requires DistinctBatches(qs) && i <= k < |qs|
    requires Run(EMPTY, qs[..i]).events != [] && Head(Run(EMPTY, qs[..i]).events) == v
    requires Candidate(qs, k, v)
    ensures exists j :: i <= j <= k && ExtendsAt(qs, j) && qs[j].expectedVersion == v
    ensures forall j, l | 0 <= j < |qs| && 0 <= l < |qs| && ExtendsAt(qs, j) && ExtendsAt(qs, l)
                          && qs[j].expectedVersion == v == qs[l].expectedVersion :: j == l
    decreases k
  {
    if m :| i <= m < k && Candidate(qs, m, v) {
      ExactlyOneCommitPerVersion(qs, i, m, v);
    } else {
      HeadStays(qs, i, k);
      assert ExtendsAt(qs, k);
    }
    forall j, l | 0 <= j < |qs| && 0 <= l < |qs| && ExtendsAt(qs, j) && ExtendsAt(qs, l)
                  && qs[j].expectedVersion == v && qs[l].expectedVersion == v
      ensures j == l
    {
      if j < l {
        NoLostUpdate(qs, j, l);
      } else if l < j {
        NoLostUpdate(qs, l, j);
      }
    }
  }

  // ----- reading a stream back -----------------------------------------------

  /** Batches are joined in their sequence. */
  lemma {:induction false} ConcatJoins(z: seq<Scored>, last: Scored)
    ensures Concat(z + [last]) == Concat(z) + last.batch
  {
    if z == [] {
      assert ([last])[1..] == [] && last.batch + [] == last.batch;
    } else {
      assert (z + [last])[1..] == z[1..] + [last];
      ConcatJoins(z[1..], last);
    }
  }

  lemma {:induction false} RangeAboveStart(z: seq<Scored>, start: int)
    requires forall i :: 0 <= i < |z| ==> z[i].score >= start
    ensures EventsInRange(z, start, None) == Concat(z)
  {
    if z == [] {
    } else {
      assert forall i :: 0 <= i < |z[1..]| ==> z[1..][i] == z[i + 1];
      RangeAboveStart(z[1..], start);
    }
  }

  /**
   Reading from a version that the stream reached skips exactly the batches before it and
   returns the rest in order: version `first + n` starts at batch `n`.
   */
  lemma {:induction false} ReadFromVersionSkipsEarlierBatches(z: seq<Scored>, n: nat)
    requires Contiguous(z) && n < |z|
    ensures EventsInRange(z, z[0].score + n, None) == Concat(z[n..])
  {
    if n == 0 {
      RangeAboveStart(z, z[0].score);
      assert z[0..] == z;
    } else {
      var rest := z[1..];
      assert forall i :: 0 <= i < |rest| ==> rest[i] == z[i + 1];
      ReadFromVersionSkipsEarlierBatches(rest, n - 1);
      assert rest[n - 1..] == z[n..];
    }
  }

  lemma {:induction false} RangeOutsideIsEmpty(z: seq<Scored>, start: int, end: int)
    requires forall i :: 0 <= i < |z| ==> end < z[i].score
    ensures EventsInRange(z, start, Some(end)) == []
  {
    if z == [] {
    } else {
      assert forall i :: 0 <= i < |z[1..]| ==> z[1..][i] == z[i + 1];
      RangeOutsideIsEmpty(z[1..], start, end);
    }
  }

  /** The end bound cuts the stream off behind the batch that has that score. */
  lemma {:induction false} RangeEndCutsTheStream(z: seq<Scored>, start: int, m: nat)
    requires Contiguous(z) && m < |z|
    ensures EventsInRange(z, start, Some(z[0].score + m)) == EventsInRange(z[..m + 1], start, None)
  {
    var rest := z[1..];
    assert forall i :: 0 <= i < |rest| ==> rest[i] == z[i + 1];
    assert z[..m + 1][1..] == rest[..m];
    if m == 0 {
      RangeOutsideIsEmpty(rest, start, z[0].score);
    } else {
      RangeEndCutsTheStream(rest, start, m - 1);
    }
  }

  /** Both bounds of a read are inclusive: versions `n` to `m` past the first are batches `n` to `m`. */
  lemma ReadRangeIsTheBatchesBetween(z: seq<Scored>, n: nat, m: nat)
    requires Contiguous(z) && n <= m < |z|
    ensures EventsInRange(z, z[0].score + n, Some(z[0].score + m)) == Concat(z[n..m + 1])
  {
    RangeEndCutsTheStream(z, z[0].score + n, m);
    ReadFromVersionSkipsEarlierBatches(z[..m + 1], n);
    assert z[..m + 1][n..] == z[n..m + 1];
  }
}
