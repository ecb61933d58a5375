/**
 Handling an event: the first-writer script of the Redis event store and the event
 subscriber, which sends what the store returned for each handler type.
 */
module EventHandling {
  import opened Wrappers
  import opened EventStore
  import opened Handlers

  /** The messages stored in the subscriber's hash under the event id. */
  datatype Handled = Handled(commands: seq<string>, events: seq<Event>, sagaResult: Option<string>, eventResult: Option<string>)

  /** A subscriber's hash field: the subscriber and the event id. */
  datatype Field = Field(subscriber: string, eventId: string)

  /**
   What `HandleEvent` gives back. Reading a stored saga result looks its type up by code, and a
   record without a saga result has a null code, for which the look-up throws.
   */
  datatype Answer = Answer(commands: seq<string>, events: seq<Event>, sagaResult: Option<string>) | NullTypeCode

  /** `HSETNX`: only the first writer of a field stores anything. */
  function StoreFirst(handled: map<Field, Handled>, f: Field, h: Handled): map<Field, Handled> {
    if f in handled then handled else handled[f := h]
  }

  function AnswerOf(handled: map<Field, Handled>, f: Field, h: Handled): Answer {
    if f !in handled then Answer(h.commands, h.events, h.sagaResult)
    else if handled[f].sagaResult.None? then NullTypeCode
    else Answer(handled[f].commands, handled[f].events,
                if Blank(handled[f].sagaResult) then None else handled[f].sagaResult)
  }

  class HandledEvents {
    var handled: map<Field, Handled>

    constructor ()
      ensures handled == map[]
    {
      handled := map[];
    }

    method HandleEvent(subscriber: string, eventId: string, h: Handled) returns (answer: Answer)
      modifies this
      ensures handled == StoreFirst(old(handled), Field(subscriber, eventId), h)
      ensures answer == AnswerOf(old(handled), Field(subscriber, eventId), h)
    {
      var field := Field(subscriber, eventId);
      var commands, events, sagaResult := h.commands, h.events, h.sagaResult;
      if field !in handled {
        handled := handled[field := h];
      } else {
        commands, events := handled[field].commands, handled[field].events;
        if handled[field].sagaResult.None? {
          return NullTypeCode;
        }
        sagaResult := if Blank(handled[field].sagaResult) then None else handled[field].sagaResult;
      }
      return Answer(commands, events, sagaResult);
    }
  }

  // ----- any interleaving of handlers ----------------------------------------

  datatype HandleCall = HandleCall(field: Field, messages: Handled)

  ghost function RunCalls(handled: map<Field, Handled>, calls: seq<HandleCall>): map<Field, Handled>
    decreases |calls|
  {
    if calls == [] then handled
    else RunCalls(StoreFirst(handled, calls[0].field, calls[0].messages), calls[1..])
  }

  lemma {:induction false} StoredFieldStays(handled: map<Field, Handled>, calls: seq<HandleCall>, f: Field)
    requires f in handled
    ensures f in RunCalls(handled, calls) && RunCalls(handled, calls)[f] == handled[f]
    decreases |calls|
  {
    if calls == [] {
    } else {
      StoredFieldStays(StoreFirst(handled, calls[0].field, calls[0].messages), calls[1..], f);
    }
  }

  /**
   First writer wins. Whatever calls of any handlers come between, a later call for the same
   field returns the first call's commands and events and stores nothing; it returns at all if
   and only if the first call stored a saga result.
   */
  lemma FirstWriterWins(handled: map<Field, Handled>, first: HandleCall, between: seq<HandleCall>, later: Handled)
    requires first.field !in handled
    ensures var after := RunCalls(StoreFirst(handled, first.field, first.messages), between);
            var answer := AnswerOf(after, first.field, later);
            && StoreFirst(after, first.field, later) == after
            && (answer.Answer? <==> first.messages.sagaResult.Some?)
            && (answer.Answer? ==> answer.commands == first.messages.commands && answer.events == first.messages.events)
            && (answer.Answer? && !Blank(first.messages.sagaResult) ==> answer.sagaResult == first.messages.sagaResult)
  {
    StoredFieldStays(StoreFirst(handled, first.field, first.messages), between, first.field);
  }

  /** The case that fails: an event handled once without a saga result cannot be handled again. */
  lemma SecondHandlingWithoutSagaThrows()
    ensures var f := Field("subscriber1", "eventId3");
            var h := Handled(["command"], [], None, None);
            AnswerOf(map[], f, h) == Answer(["command"], [], None) &&
            AnswerOf(StoreFirst(map[], f, h), f, h) == NullTypeCode
  {
    assert Field("subscriber1", "eventId3") in map[Field("subscriber1", "eventId3") := Handled(["command"], [], None, None)];
  }

  // ----- the subscriber ------------------------------------------------------

  /** Where the saga's own reply goes, when the event belongs to one. */
  datatype Saga = NoSaga | InSaga(sagaId: string, replyEndPoint: string)

  /** What is sent for one handler type. */
  datatype Sent = Sent(subscription: string, commands: seq<string>, events: seq<Event>, sagaReply: Option<string>)

  /** The messages passed to `HandleEvent`: a failed handler's own messages are cleared first. */
  function MessagesOf(saga: Saga, run: HandlerRun): Handled {
    match run.fault
    case NoFault => Handled(run.commands, run.published, run.sagaResult, run.reply)
    case DomainFault(error, event) => Handled([], if event.Some? then [event.value] else [], None, Some(error))
    case OtherFault(error, message) => Handled([], [], if saga.InSaga? then Some(error) else None, Some(message))
  }

  function SentFor(saga: Saga, subscription: string, answer: Answer): Sent
    requires answer.Answer?
  {
    Sent(subscription, answer.commands, answer.events,
         if saga.InSaga? && !Blank(Some(saga.sagaId)) && saga.replyEndPoint != "" then answer.sagaResult else None)
  }

  /** One handler type of the event: its subscription, its run, and the calls of others before it reaches the store. */
  datatype Turn = Turn(subscription: string, run: HandlerRun, others: seq<HandleCall>)

  /** One delivery of an event to its handler types, in order; it stops at the first null type code. */
  ghost function Deliver(handled: map<Field, Handled>, eventId: string, saga: Saga,
                         turns: seq<Turn>): (map<Field, Handled>, seq<Sent>)
    decreases |turns|
  {
    if turns == [] then (handled, [])
    else
      var f, h := Field(turns[0].subscription, eventId), MessagesOf(saga, turns[0].run);
      var found := RunCalls(handled, turns[0].others);
      var answer := AnswerOf(found, f, h);
      if answer.NullTypeCode? then (found, [])
      else
        var (handled', sent) := Deliver(StoreFirst(found, f, h), eventId, saga, turns[1..]);
        (handled', [SentFor(saga, turns[0].subscription, answer)] + sent)
  }

  lemma {:induction false} RunConcat(handled: map<Field, Handled>, calls: seq<HandleCall>, more: seq<HandleCall>)
    ensures RunCalls(handled, calls + more) == RunCalls(RunCalls(handled, calls), more)
    decreases |calls|
  {
    if calls == [] {
      assert [] + more == more;
    } else {
      assert (calls + more)[1..] == calls[1..] + more;
      RunConcat(StoreFirst(handled, calls[0].field, calls[0].messages), calls[1..], more);
    }
  }

  lemma RunOneMore(handled: map<Field, Handled>, calls: seq<HandleCall>, call: HandleCall)
    ensures RunCalls(handled, calls + [call]) == StoreFirst(RunCalls(handled, calls), call.field, call.messages)
  {
    RunConcat(handled, calls, [call]);
    assert RunCalls(StoreFirst(RunCalls(handled, calls), call.field, call.messages), [call][1..]) ==
           StoreFirst(RunCalls(handled, calls), call.field, call.messages);
  }

  /** Calls of other deliveries reach the store between two steps of this one. */
  method Interfere(store: HandledEvents, calls: seq<HandleCall>)
    modifies store
    ensures store.handled == RunCalls(old(store.handled), calls)
  {
    var i := 0;
    while i < |calls|
      invariant 0 <= i <= |calls|
      invariant store.handled == RunCalls(old(store.handled), calls[..i])
    {
      assert calls[..i + 1] == calls[..i] + [calls[i]];
      RunOneMore(old(store.handled), calls[..i], calls[i]);
      var _ := store.HandleEvent(calls[i].field.subscriber, calls[i].field.eventId, calls[i].messages);
      i := i + 1;
    }
    assert calls[..i] == calls;
  }

  /** The handler types are served in order; a null type code ends the delivery. */
  method ServeTurns(store: HandledEvents, eventId: string, saga: Saga, turns: seq<Turn>) returns (sent: seq<Sent>)
    modifies store
    ensures (store.handled, sent) == Deliver(old(store.handled), eventId, saga, turns)
  {
    sent := [];
    var i := 0;
    ghost var all := Deliver(store.handled, eventId, saga, turns);
    assert turns[0..] == turns && [] + all.1 == all.1;
    while i < |turns|
      invariant 0 <= i <= |turns|
      invariant all == Behind(sent, Deliver(store.handled, eventId, saga, turns[i..]))
    {
      DeliverUnrolls(store.handled, eventId, saga, turns[i..], sent);
      assert turns[i..][1..] == turns[i + 1..];
      Interfere(store, turns[i].others);
      var answer := store.HandleEvent(turns[i].subscription, eventId, MessagesOf(saga, turns[i].run));
      if answer.NullTypeCode? {
        return;
      }
      sent := sent + [SentFor(saga, turns[i].subscription, answer)];
      i := i + 1;
    }
    assert turns[i..] == [] && sent + [] == sent;
  }

  /** `ConsumeMessage`; a turn's subscription is the name built from its handler type. The offset is committed however it ends. */
  method ConsumeMessage(store: HandledEvents, consumer: InternalConsumer, eventId: string, saga: Saga, turns: seq<Turn>)
    returns (sent: seq<Sent>)
    modifies store, consumer
    ensures (store.handled, sent) == Deliver(old(store.handled), eventId, saga, turns)
    ensures consumer.committed == old(consumer.committed) + [eventId]
  {
    sent := ServeTurns(store, eventId, saga, turns);
    consumer.CommitOffset(eventId);
  }

  /** A delivery's end with what was sent before it. */
  ghost function Behind(sent: seq<Sent>, rest: (map<Field, Handled>, seq<Sent>)): (map<Field, Handled>, seq<Sent>) {
    (rest.0, sent + rest.1)
  }

  lemma DeliverUnrolls(handled: map<Field, Handled>, eventId: string, saga: Saga, turns: seq<Turn>, sent: seq<Sent>)
    requires turns != []
    ensures var f, h := Field(turns[0].subscription, eventId), MessagesOf(saga, turns[0].run);
            var found := RunCalls(handled, turns[0].others);
            var answer := AnswerOf(found, f, h);
            Behind(sent, Deliver(handled, eventId, saga, turns)) ==
            if answer.NullTypeCode? then (StoreFirst(found, f, h), sent)
            else Behind(sent + [SentFor(saga, turns[0].subscription, answer)],
                        Deliver(StoreFirst(found, f, h), eventId, saga, turns[1..]))
  {
    var f, h := Field(turns[0].subscription, eventId), MessagesOf(saga, turns[0].run);
    var found := RunCalls(handled, turns[0].others);
    var answer := AnswerOf(found, f, h);
    if answer.NullTypeCode? {
      assert sent + [] == sent;
    } else {
      var rest := Deliver(StoreFirst(found, f, h), eventId, saga, turns[1..]);
      assert sent + ([SentFor(saga, turns[0].subscription, answer)] + rest.1) ==
             (sent + [SentFor(saga, turns[0].subscription, answer)]) + rest.1;
    }
  }

  /** Neither a delivery nor what others do meanwhile changes a stored field. */
  lemma {:induction false} DeliverKeepsFields(handled: map<Field, Handled>, eventId: string, saga: Saga,
                                              turns: seq<Turn>, f: Field)
    requires f in handled
    decreases |turns|
    ensures var after := Deliver(handled, eventId, saga, turns).0;
            f in after && after[f] == handled[f]
  {
    if turns == [] {
    } else {
      var own, h := Field(turns[0].subscription, eventId), MessagesOf(saga, turns[0].run);
      var found := RunCalls(handled, turns[0].others);
      StoredFieldStays(handled, turns[0].others, f);
      if AnswerOf(found, own, h).Answer? {
        DeliverKeepsFields(StoreFirst(found, own, h), eventId, saga, turns[1..], f);
      }
    }
  }

  /** A delivery's own call for a handler type, with the calls of others that come right before it. */
  function CallsOfTurn(eventId: string, saga: Saga, turn: Turn): seq<HandleCall> {
    turn.others + [HandleCall(Field(turn.subscription, eventId), MessagesOf(saga, turn.run))]
  }

  /** All calls, its own and those of others, from the start of a delivery through its `i`-th own one. */
  function CallsThrough(eventId: string, saga: Saga, turns: seq<Turn>, i: nat): seq<HandleCall>
    requires i < |turns|
    decreases |turns|
  {
    CallsOfTurn(eventId, saga, turns[0]) + (if i == 0 then [] else CallsThrough(eventId, saga, turns[1..], i - 1))
  }

  /** Whatever a delivery sends for a handler type is what is stored for it right after its own call. */
  lemma {:induction false} SentIsStored(handled: map<Field, Handled>, eventId: string, saga: Saga, turns: seq<Turn>,
                                        i: nat)
    decreases |turns|
    requires i < |turns| && i < |Deliver(handled, eventId, saga, turns).1|
    ensures var sent, stored := Deliver(handled, eventId, saga, turns).1, RunCalls(handled, CallsThrough(eventId, saga, turns, i));
            && sent[i].subscription == turns[i].subscription
            && Field(turns[i].subscription, eventId) in stored
            && sent[i].commands == stored[Field(turns[i].subscription, eventId)].commands
            && sent[i].events == stored[Field(turns[i].subscription, eventId)].events
  {
    var f, h := Field(turns[0].subscription, eventId), MessagesOf(saga, turns[0].run);
    var next := StoreFirst(RunCalls(handled, turns[0].others), f, h);
    RunOneMore(handled, turns[0].others, HandleCall(f, h));
    if i == 0 {
      assert CallsThrough(eventId, saga, turns, 0) == CallsOfTurn(eventId, saga, turns[0]);
    } else {
      SentIsStored(next, eventId, saga, turns[1..], i - 1);
      RunConcat(handled, CallsOfTurn(eventId, saga, turns[0]), CallsThrough(eventId, saga, turns[1..], i - 1));
    }
  }

  /** What a delivery that starts at `start` of a history of calls sent for its `i`-th handler type. */
  ghost function SentInHistory(handled: map<Field, Handled>, history: seq<HandleCall>, start: nat,
                               eventId: string, saga: Saga, turns: seq<Turn>): seq<Sent>
    requires start <= |history|
  {
    Deliver(RunCalls(handled, history[..start]), eventId, saga, turns).1
  }

  /** What is stored after a part of a history stays to its end. */
  lemma StoredInTheEnd(handled: map<Field, Handled>, history: seq<HandleCall>, start: nat, own: seq<HandleCall>, f: Field)
    requires start <= |history| && own <= history[start..]
    requires f in RunCalls(RunCalls(handled, history[..start]), own)
    ensures f in RunCalls(handled, history)
    ensures RunCalls(handled, history)[f] == RunCalls(RunCalls(handled, history[..start]), own)[f]
  {
    var before, rest := history[..start], history[start..][|own|..];
    assert history == before + (own + rest);
    RunConcat(handled, before, own + rest);
    RunConcat(RunCalls(handled, before), own, rest);
    StoredFieldStays(RunCalls(RunCalls(handled, before), own), rest, f);
  }

  lemma SentIsStoredInTheEnd(handled: map<Field, Handled>, history: seq<HandleCall>, start: nat,
                             eventId: string, saga: Saga, turns: seq<Turn>, i: nat)
    requires start <= |history| && i < |SentInHistory(handled, history, start, eventId, saga, turns)|
    requires i < |turns| && CallsThrough(eventId, saga, turns, i) <= history[start..]
    ensures var sent, f := SentInHistory(handled, history, start, eventId, saga, turns)[i], Field(turns[i].subscription, eventId);
            var stored := RunCalls(handled, history);
            && sent.subscription == turns[i].subscription && f in stored
            && sent.commands == stored[f].commands && sent.events == stored[f].events
  {
    var before, own := history[..start], CallsThrough(eventId, saga, turns, i);
    SentIsStored(RunCalls(handled, before), eventId, saga, turns, i);
    StoredInTheEnd(handled, history, start, own, Field(turns[i].subscription, eventId));
  }

  /**
   All deliveries of one event that send anything for a handler type send identical commands and
   events for it. Both are any deliveries of one history of calls: one after the other, or
   overlapping with their calls interleaved, with any calls of further deliveries between; and
   the handler may do anything else the second time.
   */
  lemma {:induction false} AllDeliveriesSendTheSame(handled: map<Field, Handled>, history: seq<HandleCall>, eventId: string, saga: Saga,
                                 start1: nat, turns1: seq<Turn>, i: nat, start2: nat, turns2: seq<Turn>, j: nat)
    requires start1 <= |history| && i < |turns1| && CallsThrough(eventId, saga, turns1, i) <= history[start1..]
    requires start2 <= |history| && j < |turns2| && CallsThrough(eventId, saga, turns2, j) <= history[start2..]
    requires i < |SentInHistory(handled, history, start1, eventId, saga, turns1)|
    requires j < |SentInHistory(handled, history, start2, eventId, saga, turns2)|
    requires turns1[i].subscription == turns2[j].subscription
    ensures var sent1 := SentInHistory(handled, history, start1, eventId, saga, turns1)[i];
            var sent2 := SentInHistory(handled, history, start2, eventId, saga, turns2)[j];
            sent1.subscription == sent2.subscription && sent1.commands == sent2.commands && sent1.events == sent2.events
  {
    SentIsStoredInTheEnd(handled, history, start1, eventId, saga, turns1, i);
    SentIsStoredInTheEnd(handled, history, start2, eventId, saga, turns2, j);
  }

  // ----- what a delivery sends, written out -----------------------------------

  /** The saga's own reply goes out if there is a result, and a saga with a name and an end point to send it to. */
  ghost predicate SagaReplyIs(saga: Saga, sagaResult: Option<string>, sagaReply: Option<string>) {
    if && saga.InSaga? && saga.replyEndPoint != ""
       && exists c :: c in saga.sagaId && c != ' ' && c != '\t' && c != '\n' && c != '\r'
    then sagaReply == sagaResult
    else sagaReply == None
  }

  /** The `i`-th handler type was served with these messages. */
  ghost predicate ServedWith(saga: Saga, sent: seq<Sent>, turns: seq<Turn>, i: nat,
                             commands: seq<string>, events: seq<Event>, sagaResult: Option<string>)
    requires i < |turns|
  {
    && i < |sent| && sent[i].subscription == turns[i].subscription
    && sent[i].commands == commands && sent[i].events == events && SagaReplyIs(saga, sagaResult, sent[i].sagaReply)
  }

  /** It was, and the store holds the same messages with the handler's reply under its field. */
  ghost predicate FirstServed(handled: map<Field, Handled>, eventId: string, saga: Saga, sent: seq<Sent>, turns: seq<Turn>,
                              i: nat, commands: seq<string>, events: seq<Event>,
                              sagaResult: Option<string>, reply: Option<string>)
    requires i < |turns|
  {
    && ServedWith(saga, sent, turns, i, commands, events, sagaResult)
    && Field(turns[i].subscription, eventId) in handled
    && handled[Field(turns[i].subscription, eventId)] == Handled(commands, events, sagaResult, reply)
  }

  /** How the handler's end becomes what is sent and stored for it. */
  ghost predicate FirstServedAs(handled: map<Field, Handled>, eventId: string, saga: Saga, sent: seq<Sent>, turns: seq<Turn>, i: nat)
    requires i < |turns|
  {
    var run := turns[i].run;
    match run.fault
    case NoFault =>
      FirstServed(handled, eventId, saga, sent, turns, i, run.commands, run.published, run.sagaResult, run.reply)
    case DomainFault(error, None) => FirstServed(handled, eventId, saga, sent, turns, i, [], [], None, Some(error))
    case DomainFault(error, Some(event)) => FirstServed(handled, eventId, saga, sent, turns, i, [], [event], None, Some(error))
    case OtherFault(error, message) =>
      FirstServed(handled, eventId, saga, sent, turns, i, [], [], if saga.InSaga? then Some(error) else None, Some(message))
  }

  /** Nobody writes the field before the `i`-th turn's own call, neither earlier turns nor others. */
  ghost predicate UnwrittenUntil(handled: map<Field, Handled>, eventId: string, turns: seq<Turn>, i: nat)
    requires i < |turns|
  {
    var f := Field(turns[i].subscription, eventId);
    && f !in handled
    && (forall j :: 0 <= j <= i ==> forall c :: c in turns[j].others ==> c.field != f)
    && (forall j :: 0 <= j < i ==> turns[j].subscription != turns[i].subscription)
  }

  lemma {:induction false} OtherFieldsStay(handled: map<Field, Handled>, calls: seq<HandleCall>, f: Field)
    requires f !in handled && forall c :: c in calls ==> c.field != f
    ensures f !in RunCalls(handled, calls)
    decreases |calls|
  {
    if calls == [] {
    } else {
      assert calls[0] in calls;
      OtherFieldsStay(StoreFirst(handled, calls[0].field, calls[0].messages), calls[1..], f);
    }
  }

  lemma FirstTurnIsServed(handled: map<Field, Handled>, eventId: string, saga: Saga, turns: seq<Turn>)
    requires turns != [] && UnwrittenUntil(handled, eventId, turns, 0)
    ensures var (after, sent) := Deliver(handled, eventId, saga, turns);
            FirstServedAs(after, eventId, saga, sent, turns, 0)
  {
    var f, h := Field(turns[0].subscription, eventId), MessagesOf(saga, turns[0].run);
    OtherFieldsStay(handled, turns[0].others, f);
    var next := StoreFirst(RunCalls(handled, turns[0].others), f, h);
    DeliverKeepsFields(next, eventId, saga, turns[1..], f);
    assert next[f] == h;
  }

  /**
   The first delivery that reaches a handler type's field sends and stores what the handler made. A
   handler that returns: its commands and events, and its saga result. One that throws a domain
   exception: no command and only the exception's event. Any other: neither, and the error as the
   saga's result, if the event belongs to one.
   */
  lemma {:induction false} FirstDeliverySendsWhatWasMade(handled: map<Field, Handled>, eventId: string, saga: Saga,
                                                         turns: seq<Turn>, i: nat)
    requires i < |turns| && UnwrittenUntil(handled, eventId, turns, i)
    requires |Deliver(handled, eventId, saga, turns[..i]).1| == i
    ensures var (after, sent) := Deliver(handled, eventId, saga, turns);
            FirstServedAs(after, eventId, saga, sent, turns, i)
    decreases i
  {
    if i == 0 {
      FirstTurnIsServed(handled, eventId, saga, turns);
    } else {
      var f, h := Field(turns[0].subscription, eventId), MessagesOf(saga, turns[0].run);
      var found := RunCalls(handled, turns[0].others);
      var own := Field(turns[i].subscription, eventId);
      OtherFieldsStay(handled, turns[0].others, own);
      assert turns[..i][0] == turns[0] && turns[..i][1..] == turns[1..][..i - 1];
      assert forall j :: 0 <= j < |turns[1..]| ==> turns[1..][j] == turns[j + 1];
      assert UnwrittenUntil(StoreFirst(found, f, h), eventId, turns[1..], i - 1);
      FirstDeliverySendsWhatWasMade(StoreFirst(found, f, h), eventId, saga, turns[1..], i - 1);
    }
  }

  /**
   A delivery that finds a stored field sends the stored commands and events, and the stored saga
   result if it holds more than white space. Without a stored saga result it stops there.
   */
  lemma LaterDeliverySendsWhatIsStored(handled: map<Field, Handled>, eventId: string, saga: Saga, turns: seq<Turn>)
    requires turns != [] && Field(turns[0].subscription, eventId) in RunCalls(handled, turns[0].others)
    ensures var stored := RunCalls(handled, turns[0].others)[Field(turns[0].subscription, eventId)];
            var sent := Deliver(handled, eventId, saga, turns).1;
            if stored.sagaResult.None? then sent == []
            else ServedWith(saga, sent, turns, 0, stored.commands, stored.events,
                            if exists c :: c in stored.sagaResult.value && c != ' ' && c != '\t' && c != '\n' && c != '\r'
                            then stored.sagaResult else None)
  {
  }

  /** How many handler types come before the first one that stored no saga result. */
  ghost function AnswerablePrefix(handled: map<Field, Handled>, eventId: string, turns: seq<Turn>): nat
    requires forall i :: 0 <= i < |turns| ==> Field(turns[i].subscription, eventId) in handled
  {
    if turns == [] || handled[Field(turns[0].subscription, eventId)].sagaResult.None? then 0
    else
      assert forall i :: 0 <= i < |turns[1..]| ==> turns[1..][i] == turns[i + 1];
      1 + AnswerablePrefix(handled, eventId, turns[1..])
  }

  /**
   A redelivery of a fully handled event changes none of its fields and sends exactly for the
   handler types before the first one that stored no saga result, whatever others do meanwhile; it
   serves all of them if and only if each stored one.
   */
  lemma {:induction false} RedeliveryStopsWithoutSagaResult(handled: map<Field, Handled>, eventId: string, saga: Saga,
                                                            turns: seq<Turn>)
    decreases |turns|
    requires forall i :: 0 <= i < |turns| ==> Field(turns[i].subscription, eventId) in handled
    ensures var (after, sent) := Deliver(handled, eventId, saga, turns);
            && (forall f :: f in handled ==> f in after && after[f] == handled[f])
            && |sent| == AnswerablePrefix(handled, eventId, turns)
            && (|sent| == |turns| <==>
                  forall i :: 0 <= i < |turns| ==> handled[Field(turns[i].subscription, eventId)].sagaResult.Some?)
  {
    forall f | f in handled
      ensures var after := Deliver(handled, eventId, saga, turns).0; f in after && after[f] == handled[f]
    {
      DeliverKeepsFields(handled, eventId, saga, turns, f);
    }
    if turns == [] {
    } else {
      assert forall i :: 0 <= i < |turns[1..]| ==> turns[1..][i] == turns[i + 1];
      var f := Field(turns[0].subscription, eventId);
      var found := RunCalls(handled, turns[0].others);
      StoredFieldStays(handled, turns[0].others, f);
      StoredPrefix(handled, found, eventId, turns[1..], turns[0].others);
      RedeliveryStopsWithoutSagaResult(found, eventId, saga, turns[1..]);
    }
  }

  /** The prefix of answerable handler types stays what it was while others act. */
  lemma {:induction false} StoredPrefix(handled: map<Field, Handled>, later: map<Field, Handled>, eventId: string,
                                        turns: seq<Turn>, calls: seq<HandleCall>)
    requires later == RunCalls(handled, calls)
    requires forall i :: 0 <= i < |turns| ==> Field(turns[i].subscription, eventId) in handled
    ensures forall i :: 0 <= i < |turns| ==>
      var f := Field(turns[i].subscription, eventId); f in later && later[f] == handled[f]
    ensures AnswerablePrefix(later, eventId, turns) == AnswerablePrefix(handled, eventId, turns)
  {
    if turns == [] {
    } else {
      assert forall i :: 0 <= i < |turns[1..]| ==> turns[1..][i] == turns[i + 1];
      StoredPrefix(handled, later, eventId, turns[1..], calls);
      StoredFieldStays(handled, calls, Field(turns[0].subscription, eventId));
    }
  }
}
