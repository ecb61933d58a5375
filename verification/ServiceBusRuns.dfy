/**
 Runs of a ServiceBus consumer, with crashes between any two of its calls and with calls that
 fail: why a restart finds every deferred message again, and exactly when it does.
 */
module ServiceBusRuns {
  import opened Wrappers
  import opened ServiceBus

  /** Where the consumer stands: before the peek from a number, or in the receive loop. */
  datatype Phase = Peeking(next: nat) | Receiving(batch: seq<nat>, pending: Option<nat>)

  /**
   The queue with one consumer. In the receive loop `batch` is what was received and not yet
   deferred, and `pending` was deferred and not yet handed over. `deferred`, `handed` and
   `completed` are the numbers to which that ever happened; `since` those handed over since the
   last restart, and `missed` those collected since then for a callback of the recover loop that failed.
   */
  datatype World = World(
    queue: seq<Message>,
    nextNumber: nat,
    phase: Phase,
    deferred: set<nat>,
    handed: set<nat>,
    since: set<nat>,
    missed: set<nat>,
    completed: set<nat>)

  const EMPTY := World([], 0, Peeking(0), {}, {}, {}, {}, {})

  /**
   One step of the consumer or of those around it. `PeekFails` is an exception of the recover
   loop's callback, which comes after the loop has moved on to the next number. `Fail` is one of
   `Defer` or of the receive loop's callback: the rest of the batch is abandoned with its locks,
   and the loop goes on. `Expire` ends the lock of an abandoned message.
   */
  datatype Step =
    | Arrival(gap: nat)
    | Peek(count: nat)
    | PeekFails(count: nat)
    | Receive(count: nat)
    | DeferNext
    | HandOver
    | Fail
    | Expire(number: nat)
    | Complete(number: nat)
    | Crash

  ghost predicate Enabled(w: World, step: Step) {
    match step
    case Peek(count) => w.phase.Peeking? && 1 <= count <= BATCH
    case PeekFails(count) =>
      w.phase.Peeking? && 1 <= count <= BATCH && Peeked(w.queue, w.phase.next, count) != []
    case Receive(count) => w.phase == Receiving([], None) && count <= BATCH
    case DeferNext => w.phase.Receiving? && w.phase.batch != [] && w.phase.pending.None?
    case HandOver => w.phase.Receiving? && w.phase.pending.Some?
    case Fail => w.phase.Receiving? && (w.phase.batch != [] || w.phase.pending.Some?)
    case Expire(number) => number !in BatchOf(w)
    case Complete(number) => number in w.handed
    case _ => true
  }

  function BatchOf(w: World): seq<nat> {
    if w.phase.Receiving? then w.phase.batch else []
  }

  /** The state of the message with a number. */
  function At(q: seq<Message>, n: nat): Option<State> {
    if q == [] then None else if q[0].sequenceNumber == n then Some(q[0].state) else At(q[1..], n)
  }

  function NumberSet(q: seq<Message>): set<nat> {
    set m | m in q :: m.sequenceNumber
  }

  /** What a peek gives, and what of it is handed over. */
  function Peeked(q: seq<Message>, fromNumber: nat, count: nat): seq<Message> {
    if |From(q, fromNumber)| <= count then From(q, fromNumber) else From(q, fromNumber)[..count]
  }

  function AfterPeek(batch: seq<Message>): Phase {
    if batch != [] && DeferredRun(batch) == batch then Peeking(batch[|batch| - 1].sequenceNumber + 1)
    else Receiving([], None)
  }

  /** A peek and the callback are one step: a crash between them leaves nothing that one before them does not. */
  function Next(w: World, step: Step): World
    requires Enabled(w, step)
  {
    match step
    case Arrival(gap) =>
      w.(queue := w.queue + Arrive(w.nextNumber, [gap]), nextNumber := w.nextNumber + gap + 1)
    case Peek(count) =>
      var batch := Peeked(w.queue, w.phase.next, count);
      var numbers := NumberSet(DeferredRun(batch));
      w.(phase := AfterPeek(batch), handed := w.handed + numbers, since := w.since + numbers)
    case PeekFails(count) =>
      var batch := Peeked(w.queue, w.phase.next, count);
      w.(phase := AfterPeek(batch), missed := w.missed + NumberSet(DeferredRun(batch)))
    case Receive(count) =>
      w.(queue := LockFirst(w.queue, count).0, phase := Receiving(LockFirst(w.queue, count).1, None))
    case DeferNext =>
      var n := w.phase.batch[0];
      w.(queue := SetState(w.queue, n, Deferred), phase := Receiving(w.phase.batch[1..], Some(n)), deferred := w.deferred + {n})
    case HandOver =>
      var n := w.phase.pending.value;
      w.(phase := Receiving(w.phase.batch, None), handed := w.handed + {n}, since := w.since + {n})
    case Fail => w.(phase := Receiving([], None))
    case Expire(number) =>
      if At(w.queue, number) == Some(Locked) then w.(queue := SetState(w.queue, number, Active)) else w
    case Complete(number) =>
      w.(queue := Without(w.queue, {number}), completed := w.completed + {number})
    case Crash =>
      w.(queue := ReleaseLocks(w.queue), phase := Peeking(0), since := {}, missed := {})
  }

  ghost predicate Legal(w: World, steps: seq<Step>)
    decreases |steps|
  {
    steps == [] || (Enabled(w, steps[0]) && Legal(Next(w, steps[0]), steps[1..]))
  }

  ghost function Run(w: World, steps: seq<Step>): World
    requires Legal(w, steps)
    decreases |steps|
  {
    if steps == [] then w else Run(Next(w, steps[0]), steps[1..])
  }

  // ----- the state of one message --------------------------------------------

  lemma {:induction false} AtAbsent(q: seq<Message>, n: nat)
    requires forall m :: m in q ==> m.sequenceNumber != n
    ensures At(q, n) == None
  {
    if q == [] {
    } else {
      assert q[0] in q;
      AtAbsent(q[1..], n);
    }
  }

  lemma {:induction false} AtIsThere(q: seq<Message>, n: nat)
    requires At(q, n).Some?
    ensures Message(n, At(q, n).value) in q
  {
    if q[0].sequenceNumber == n {
      assert q[0] in q;
    } else {
      AtIsThere(q[1..], n);
    }
  }

  lemma {:induction false} AtMember(q: seq<Message>, m: Message)
    requires Sorted(q) && m in q
    ensures At(q, m.sequenceNumber) == Some(m.state)
  {
    if m == q[0] {
    } else {
      assert m in q[1..];
      AtMember(q[1..], m);
    }
  }

  lemma {:induction false} WithoutAt(q: seq<Message>, completed: set<nat>, n: nat)
    requires Sorted(q)
    ensures At(Without(q, completed), n) == if n in completed && At(q, n) == Some(Deferred) then None else At(q, n)
  {
    if q == [] {
    } else {
      WithoutAt(q[1..], completed, n);
      if q[0].sequenceNumber == n {
        AtAbsent(q[1..], n);
      }
      if q[0].state == Deferred && q[0].sequenceNumber in completed {
        assert Without(q, completed) == Without(q[1..], completed);
      } else {
        assert Without(q, completed)[1..] == Without(q[1..], completed);
      }
    }
  }

  lemma {:induction false} SetStateAt(q: seq<Message>, k: nat, state: State, n: nat)
    ensures At(SetState(q, k, state), n) == if n == k && At(q, k).Some? then Some(state) else At(q, n)
  {
    if q == [] {
    } else if q[0].sequenceNumber == k {
      assert SetState(q, k, state)[1..] == q[1..];
    } else {
      SetStateAt(q[1..], k, state, n);
      assert SetState(q, k, state)[1..] == SetState(q[1..], k, state);
    }
  }

  lemma {:induction false} LockAt(q: seq<Message>, count: nat, n: nat)
    requires Sorted(q)
    ensures At(LockFirst(q, count).0, n) == if n in LockFirst(q, count).1 then Some(Locked) else At(q, n)
    ensures n in LockFirst(q, count).1 ==> At(q, n) == Some(Active)
  {
    if q == [] || count == 0 {
    } else {
      var less := if q[0].state == Active then count - 1 else count;
      LockAt(q[1..], less, n);
      assert LockFirst(q, count).0[1..] == LockFirst(q[1..], less).0;
      if q[0].sequenceNumber == n {
        AtAbsent(q[1..], n);
      }
    }
  }

  lemma {:induction false} ReleaseAt(q: seq<Message>, n: nat)
    ensures At(ReleaseLocks(q), n) == if At(q, n) == Some(Locked) then Some(Active) else At(q, n)
  {
    if q == [] {
    } else {
      ReleaseAt(q[1..], n);
    }
  }

  lemma {:induction false} AppendAt(q: seq<Message>, m: Message, n: nat)
    ensures At(q + [m], n) == if At(q, n).Some? then At(q, n) else if m.sequenceNumber == n then Some(m.state) else None
  {
    if q == [] {
      assert q + [m] == [m] && [m][1..] == [];
    } else {
      assert (q + [m])[1..] == q[1..] + [m];
      AppendAt(q[1..], m, n);
    }
  }

  // ----- what every run keeps, failures included -----------------------------

  ghost predicate InOrder(w: World) {
    Sorted(w.queue) && Within(w.queue, 0, Some(w.nextNumber)) && forall n :: n in w.deferred ==> n < w.nextNumber
  }

  /** A message is deferred in the queue exactly from its deferral to its completion. */
  ghost predicate Tracked(w: World) {
    && (forall n :: At(w.queue, n) == Some(Deferred) <==> n in w.deferred && n !in w.completed)
    && (forall n :: n in w.completed ==> At(w.queue, n) == None)
    && w.completed <= w.handed <= w.deferred
  }

  ghost predicate BatchLocked(w: World) {
    && (forall n :: n in BatchOf(w) ==> At(w.queue, n) == Some(Locked))
    && Ascending(BatchOf(w))
    && (w.phase.Receiving? && w.phase.pending.Some? ==> w.phase.pending.value in w.deferred)
  }

  ghost predicate Facts(w: World) {
    InOrder(w) && Tracked(w) && BatchLocked(w)
  }

  lemma ArrivalKeepsFacts(w: World, gap: nat)
    requires Facts(w)
    ensures Facts(Next(w, Arrival(gap)))
  {
    var m := Message(w.nextNumber + gap, Active);
    assert Arrive(w.nextNumber, [gap]) == [m];
    ArriveIsSorted(w.nextNumber, [gap]);
    SortedConcat(w.queue, [m], w.nextNumber);
    AtAbsent(w.queue, m.sequenceNumber);
    forall n
      ensures At(w.queue + [m], n) == if n == m.sequenceNumber then Some(Active) else At(w.queue, n)
    {
      AppendAt(w.queue, m, n);
    }
  }

  /** What a peek collects is deferred, from the peeked number on. */
  lemma CollectedIsDeferred(w: World, count: nat)
    requires Facts(w) && w.phase.Peeking?
    ensures NumberSet(DeferredRun(Peeked(w.queue, w.phase.next, count))) <= w.deferred
    ensures forall n :: n in NumberSet(DeferredRun(Peeked(w.queue, w.phase.next, count))) ==> w.phase.next <= n
  {
    var batch := Peeked(w.queue, w.phase.next, count);
    FromIsPart(w.queue, w.phase.next);
    RunIsDeferred(batch);
    forall n | n in NumberSet(DeferredRun(batch))
      ensures n in w.deferred && w.phase.next <= n
    {
      var m :| m in DeferredRun(batch) && m.sequenceNumber == n;
      assert m in batch && m in From(w.queue, w.phase.next);
      AtMember(w.queue, m);
    }
  }

  lemma ReceiveKeepsFacts(w: World, count: nat)
    requires Facts(w) && Enabled(w, Receive(count))
    ensures Facts(Next(w, Receive(count)))
  {
    LockKeepsNumbers(w.queue, count);
    SameNumbers(w.queue, LockFirst(w.queue, count).0, w.nextNumber);
    LockedAscends(w.queue, count);
    forall n
      ensures At(LockFirst(w.queue, count).0, n) == if n in LockFirst(w.queue, count).1 then Some(Locked) else At(w.queue, n)
      ensures n in LockFirst(w.queue, count).1 ==> At(w.queue, n) == Some(Active)
    {
      LockAt(w.queue, count, n);
    }
  }

  /** Changing the state of one message that is there keeps order and range, and all other states. */
  lemma OneStateChanges(q: seq<Message>, k: nat, state: State, high: nat)
    requires Sorted(q) && Within(q, 0, Some(high)) && At(q, k).Some?
    ensures Sorted(SetState(q, k, state)) && Within(SetState(q, k, state), 0, Some(high)) && k < high
    ensures forall n :: At(SetState(q, k, state), n) == if n == k then Some(state) else At(q, n)
  {
    AtIsThere(q, k);
    SetStateKeepsNumbers(q, k, state);
    SameNumbers(q, SetState(q, k, state), high);
    forall n
      ensures At(SetState(q, k, state), n) == if n == k then Some(state) else At(q, n)
    {
      SetStateAt(q, k, state, n);
    }
  }

  lemma DeferKeepsFacts(w: World)
    requires Facts(w) && Enabled(w, DeferNext)
    ensures Facts(Next(w, DeferNext))
  {
    var batch := w.phase.batch;
    assert batch[0] in BatchOf(w);
    OneStateChanges(w.queue, batch[0], Deferred, w.nextNumber);
    forall n | n in batch[1..]
      ensures n in batch && n != batch[0]
    {
      var i :| 0 <= i < |batch[1..]| && batch[1..][i] == n;
      assert batch[i + 1] == n;
    }
  }

  lemma ExpireKeepsFacts(w: World, number: nat)
    requires Facts(w) && Enabled(w, Expire(number))
    ensures Facts(Next(w, Expire(number)))
  {
    if At(w.queue, number) == Some(Locked) {
      OneStateChanges(w.queue, number, Active, w.nextNumber);
    }
  }

  lemma CompleteKeepsFacts(w: World, number: nat)
    requires Facts(w) && Enabled(w, Complete(number))
    ensures Facts(Next(w, Complete(number)))
  {
    WithoutIsSorted(w.queue, {number});
    forall n
      ensures At(Without(w.queue, {number}), n) == if n == number && At(w.queue, n) == Some(Deferred) then None else At(w.queue, n)
    {
      WithoutAt(w.queue, {number}, n);
    }
  }

  lemma CrashKeepsFacts(w: World)
    requires Facts(w)
    ensures Facts(Next(w, Crash))
  {
    ReleaseKeepsNumbers(w.queue);
    SameNumbers(w.queue, ReleaseLocks(w.queue), w.nextNumber);
    forall n
      ensures At(ReleaseLocks(w.queue), n) == if At(w.queue, n) == Some(Locked) then Some(Active) else At(w.queue, n)
    {
      ReleaseAt(w.queue, n);
    }
  }

  lemma StepKeepsFacts(w: World, step: Step)
    requires Facts(w) && Enabled(w, step)
    ensures Facts(Next(w, step))
  {
    match step
    case Arrival(gap) => ArrivalKeepsFacts(w, gap);
    case Peek(count) => CollectedIsDeferred(w, count);
    case PeekFails(count) => CollectedIsDeferred(w, count);
    case Receive(count) => ReceiveKeepsFacts(w, count);
    case DeferNext => DeferKeepsFacts(w);
    case HandOver =>
    case Fail =>
    case Expire(number) => ExpireKeepsFacts(w, number);
    case Complete(number) => CompleteKeepsFacts(w, number);
    case Crash => CrashKeepsFacts(w);
  }

  lemma {:induction false} RunKeepsFacts(w: World, steps: seq<Step>)
    requires Facts(w) && Legal(w, steps)
    ensures Facts(Run(w, steps))
    decreases |steps|
  {
    if steps == [] {
    } else {
      StepKeepsFacts(w, steps[0]);
      RunKeepsFacts(Next(w, steps[0]), steps[1..]);
    }
  }

  /** The recovery after a crash hands these numbers over. */
  ghost predicate Recovers(crashed: World, numbers: set<nat>) {
    forall n :: n in numbers ==> n in NumberSet(DeferredRun(crashed.queue))
  }

  /** In a sorted queue every deferred message is in the first run if and only if none is behind another state. */
  lemma RunHoldsAllIff(q: seq<Message>)
    requires Sorted(q)
    ensures (forall n: nat :: At(q, n) == Some(Deferred) ==> n in NumberSet(DeferredRun(q))) <==> NoneBehind(q)
  {
    if NoneBehind(q) {
      forall n: nat | At(q, n) == Some(Deferred)
        ensures n in NumberSet(DeferredRun(q))
      {
        AtIsThere(q, n);
        RunHolds(q, Message(n, Deferred));
      }
    } else {
      var i, j :| 0 <= i < j < |q| && q[j].state == Deferred && q[i].state != Deferred;
      AtMember(q, q[j]);
      RunMisses(q, i, j);
    }
  }

  lemma RunHolds(q: seq<Message>, m: Message)
    requires NoneBehind(q) && m in q && m.state == Deferred
    ensures m in DeferredRun(q)
  {
    RunIsDeferred(q);
    var j :| 0 <= j < |q| && q[j] == m;
    assert j < |DeferredRun(q)|;
  }

  lemma RunMisses(q: seq<Message>, i: nat, j: nat)
    requires Sorted(q) && i < j < |q| && q[i].state != Deferred
    ensures q[j].sequenceNumber !in NumberSet(DeferredRun(q))
  {
    RunIsDeferred(q);
    var run := DeferredRun(q);
    assert |run| <= i;
    forall m | m in run
      ensures m.sequenceNumber != q[j].sequenceNumber
    {
      var k :| 0 <= k < |run| && run[k] == m;
      SortedAt(q, k, j);
    }
  }

  lemma {:induction false} SortedAt(q: seq<Message>, i: nat, j: nat)
    requires Sorted(q) && i < j < |q|
    ensures q[i].sequenceNumber < q[j].sequenceNumber
  {
    if i == 0 {
      assert q[1..][j - 1] in q[1..];
    } else {
      SortedAt(q[1..], i - 1, j - 1);
    }
  }

  /**
   Whatever fails in a run, a crash at its end recovers every deferred, uncompleted message if and
   only if the queue then holds no deferred message behind one that is not deferred. If all deferred
   messages had been handed over, the same decides about the handed-over ones.
   */
  lemma CrashRecoversAllIff(steps: seq<Step>)
    requires Legal(EMPTY, steps)
    ensures var w := Run(EMPTY, steps);
            var crashed := Next(w, Crash);
            && (Recovers(crashed, w.deferred - w.completed) <==> NoneBehind(crashed.queue))
            && (w.deferred <= w.handed ==> (Recovers(crashed, w.handed - w.completed) <==> NoneBehind(crashed.queue)))
  {
    RunKeepsFacts(EMPTY, steps);
    var w := Run(EMPTY, steps);
    CrashKeepsFacts(w);
    RecoversIff(Next(w, Crash));
    assert w.deferred <= w.handed ==> w.handed - w.completed == w.deferred - w.completed;
  }

  lemma RecoversIff(w: World)
    requires Facts(w)
    ensures Recovers(w, w.deferred - w.completed) <==> NoneBehind(w.queue)
  {
    RunHoldsAllIff(w.queue);
    if Recovers(w, w.deferred - w.completed) {
      forall n: nat | At(w.queue, n) == Some(Deferred)
        ensures n in NumberSet(DeferredRun(w.queue))
      {
        assert n in w.deferred - w.completed;
      }
    }
    if NoneBehind(w.queue) {
      forall n | n in w.deferred - w.completed
        ensures n in NumberSet(DeferredRun(w.queue))
      {
        assert At(w.queue, n) == Some(Deferred);
      }
    }
  }

  // ----- runs whose receive loop does not fail --------------------------------

  /** Every deferred message was handed over or missed since the restart, up to where the consumer stands. */
  ghost predicate Redelivered(w: World) {
    match w.phase
    case Peeking(next) => forall n: nat :: At(w.queue, n) == Some(Deferred) && n < next ==> n in w.since + w.missed
    case Receiving(_, pending) =>
      forall n: nat :: At(w.queue, n) == Some(Deferred) ==> n in w.since + w.missed || pending == Some(n)
  }

  /** What was missed is deferred, and is not handed over in this incarnation. */
  ghost predicate Missed(w: World) {
    && w.missed <= w.deferred && w.missed !! w.since
    && match w.phase
       case Peeking(next) => (forall n :: n in w.since ==> n < next) && forall n :: n in w.missed ==> n < next
       case Receiving(_, pending) => pending.Some? ==> pending.value !in w.missed
  }

  ghost predicate Inv(w: World) {
    Facts(w) && Phased(w.queue, BatchOf(w)) && Redelivered(w) && Missed(w)
  }

  lemma PhasedMeansNoneBehind(q: seq<Message>, batch: seq<nat>)
    requires Phased(q, batch)
    ensures NoneBehind(q)
  {
    PhasedMeansRecoverable(q, batch);
    RecoversAllIff(q);
  }

  lemma {:induction false} FromKeepsTheRest(q: seq<Message>, fromNumber: nat)
    requires Sorted(q) && NoneBehind(q)
    ensures Sorted(From(q, fromNumber)) && NoneBehind(From(q, fromNumber))
    ensures forall m :: m in q && fromNumber <= m.sequenceNumber ==> m in From(q, fromNumber)
  {
    if q == [] || q[0].sequenceNumber >= fromNumber {
    } else {
      assert forall i :: 0 <= i < |q[1..]| ==> q[1..][i] == q[i + 1];
      FromKeepsTheRest(q[1..], fromNumber);
    }
  }

  /** The deferred run of a batch ends behind a deferred message, or it is the whole batch. */
  lemma RunEndsBehind(rest: seq<Message>, batch: seq<Message>, i: nat)
    requires NoneBehind(rest) && batch <= rest && i < |rest| && rest[i].state == Deferred
    ensures i < |DeferredRun(batch)| || DeferredRun(batch) == batch
  {
    RunIsDeferred(batch);
    var r := |DeferredRun(batch)|;
    assert r < |batch| ==> rest[r] == batch[r];
  }

  /** Where the loop stands after a peek lies behind everything it collected. */
  lemma CollectedLiesBelow(batch: seq<Message>)
    requires Sorted(batch) && AfterPeek(batch).Peeking?
    ensures forall m :: m in batch ==> m.sequenceNumber < AfterPeek(batch).next
  {
    forall m | m in batch
      ensures m.sequenceNumber < AfterPeek(batch).next
    {
      var i :| 0 <= i < |batch| && batch[i] == m;
      if i < |batch| - 1 {
        SortedAt(batch, i, |batch| - 1);
      }
    }
  }

  lemma {:induction false} PrefixIsSorted(q: seq<Message>, n: nat)
    requires Sorted(q) && n <= |q|
    ensures Sorted(q[..n])
  {
    if n == 0 {
    } else {
      PrefixIsSorted(q[1..], n - 1);
      assert q[..n][1..] == q[1..][..n - 1];
    }
  }

  lemma PeekedIsSorted(q: seq<Message>, fromNumber: nat, count: nat)
    requires Sorted(From(q, fromNumber))
    ensures Sorted(Peeked(q, fromNumber, count))
  {
    if |From(q, fromNumber)| > count {
      PrefixIsSorted(From(q, fromNumber), count);
    }
  }

  /** A deferred message of the rest is collected from the batch, or it lies behind a batch of deferred ones. */
  lemma BatchCollects(rest: seq<Message>, batch: seq<Message>, i: nat)
    requires batch <= rest && batch != [] && i < |rest|
    requires i < |DeferredRun(batch)| || DeferredRun(batch) == batch
    requires |batch| <= i ==> rest[|batch| - 1].sequenceNumber < rest[i].sequenceNumber
    ensures rest[i].sequenceNumber in NumberSet(DeferredRun(batch)) ||
            (AfterPeek(batch).Peeking? && AfterPeek(batch).next <= rest[i].sequenceNumber)
  {
    RunIsDeferred(batch);
    if i < |batch| {
      assert DeferredRun(batch)[i] == rest[i];
    }
  }

  /** What is deferred from the peeked number on was collected, up to the number of the next peek. */
  lemma PeekCollectsAll(q: seq<Message>, fromNumber: nat, count: nat, n: nat)
    requires Sorted(q) && NoneBehind(q) && count >= 1 && At(q, n) == Some(Deferred) && fromNumber <= n
    ensures var batch := Peeked(q, fromNumber, count);
            n in NumberSet(DeferredRun(batch)) || (AfterPeek(batch).Peeking? && AfterPeek(batch).next <= n)
  {
    AtIsThere(q, n);
    FromKeepsTheRest(q, fromNumber);
    var rest, batch := From(q, fromNumber), Peeked(q, fromNumber, count);
    var i :| 0 <= i < |rest| && rest[i] == Message(n, Deferred);
    RunEndsBehind(rest, batch, i);
    if |batch| <= i {
      SortedAt(rest, |batch| - 1, i);
    }
    BatchCollects(rest, batch, i);
  }

  /** After a peek, whatever its callback does, all that is deferred was collected up to where the loop stands. */
  lemma PeekMovesOn(w: World, count: nat)
    requires Inv(w) && Enabled(w, Peek(count))
    ensures var batch := Peeked(w.queue, w.phase.next, count);
            var numbers, phase := NumberSet(DeferredRun(batch)), AfterPeek(batch);
            && (forall n: nat :: At(w.queue, n) == Some(Deferred) && w.phase.next <= n ==>
                  n in numbers || (phase.Peeking? && phase.next <= n))
            && (phase.Peeking? ==> w.phase.next <= phase.next && forall n :: n in numbers ==> n < phase.next)
  {
    PhasedMeansNoneBehind(w.queue, []);
    FromKeepsTheRest(w.queue, w.phase.next);
    FromIsPart(w.queue, w.phase.next);
    var batch := Peeked(w.queue, w.phase.next, count);
    forall n: nat | At(w.queue, n) == Some(Deferred) && w.phase.next <= n
      ensures n in NumberSet(DeferredRun(batch)) || (AfterPeek(batch).Peeking? && AfterPeek(batch).next <= n)
    {
      PeekCollectsAll(w.queue, w.phase.next, count, n);
    }
    if AfterPeek(batch).Peeking? {
      PeekedIsSorted(w.queue, w.phase.next, count);
      CollectedLiesBelow(batch);
      RunIsDeferred(batch);
      assert batch[|batch| - 1] in From(w.queue, w.phase.next);
    }
  }

  lemma PeekKeepsInv(w: World, step: Step)
    requires Inv(w) && Enabled(w, step) && (step.Peek? || step.PeekFails?)
    ensures Inv(Next(w, step))
  {
    CollectedIsDeferred(w, step.count);
    PeekMovesOn(w, step.count);
    StepKeepsFacts(w, step);
    var numbers := NumberSet(DeferredRun(Peeked(w.queue, w.phase.next, step.count)));
    assert numbers !! w.since && numbers !! w.missed;
  }

  lemma DeferKeepsInv(w: World)
    requires Inv(w) && Enabled(w, DeferNext)
    ensures Inv(Next(w, DeferNext))
  {
    DeferKeepsFacts(w);
    DeferKeepsPhases(w.queue, w.phase.batch);
    assert w.phase.batch[0] in BatchOf(w);
    OneStateChanges(w.queue, w.phase.batch[0], Deferred, w.nextNumber);
    assert w.phase.batch[0] !in w.deferred;
  }

  lemma ReceiveKeepsInv(w: World, count: nat)
    requires Inv(w) && Enabled(w, Receive(count))
    ensures Inv(Next(w, Receive(count)))
  {
    ReceiveKeepsFacts(w, count);
    ReceiveKeepsPhases(w.queue, count);
    forall n
      ensures At(LockFirst(w.queue, count).0, n) == Some(Deferred) ==> At(w.queue, n) == Some(Deferred)
    {
      LockAt(w.queue, count, n);
    }
  }

  lemma ArrivalKeepsInv(w: World, gap: nat)
    requires Inv(w)
    ensures Inv(Next(w, Arrival(gap)))
  {
    ArrivalKeepsFacts(w, gap);
    var m := Message(w.nextNumber + gap, Active);
    assert Arrive(w.nextNumber, [gap]) == [m];
    ArrivalKeepsPhases(w.queue, BatchOf(w), [m]);
    forall n
      ensures At(w.queue + [m], n) == Some(Deferred) ==> At(w.queue, n) == Some(Deferred)
    {
      AppendAt(w.queue, m, n);
    }
  }

  lemma CompleteKeepsInv(w: World, number: nat)
    requires Inv(w) && Enabled(w, Complete(number))
    ensures Inv(Next(w, Complete(number)))
  {
    CompleteKeepsFacts(w, number);
    CompleteKeepsPhases(w.queue, BatchOf(w), {number});
    forall n
      ensures At(Without(w.queue, {number}), n) == Some(Deferred) ==> At(w.queue, n) == Some(Deferred)
    {
      WithoutAt(w.queue, {number}, n);
    }
  }

  /** The step is no failure of the receive loop and does not end the lock of an abandoned message. */
  predicate KeepsPhases(step: Step) {
    !step.Fail? && !step.Expire?
  }

  lemma StepKeepsInv(w: World, step: Step)
    requires Inv(w) && Enabled(w, step) && KeepsPhases(step)
    ensures Inv(Next(w, step))
  {
    match step
    case Arrival(gap) => ArrivalKeepsInv(w, gap);
    case Peek(_) => PeekKeepsInv(w, step);
    case PeekFails(_) => PeekKeepsInv(w, step);
    case Receive(count) => ReceiveKeepsInv(w, count);
    case DeferNext => DeferKeepsInv(w);
    case HandOver =>
    case Complete(number) => CompleteKeepsInv(w, number);
    case Crash =>
      CrashKeepsFacts(w);
      ReleaseKeepsPhases(w.queue, BatchOf(w));
  }

  lemma {:induction false} RunKeepsInv(w: World, steps: seq<Step>)
    requires Inv(w) && Legal(w, steps) && forall i :: 0 <= i < |steps| ==> KeepsPhases(steps[i])
    ensures Inv(Run(w, steps))
    decreases |steps|
  {
    if steps == [] {
    } else {
      StepKeepsInv(w, steps[0]);
      RunKeepsInv(Next(w, steps[0]), steps[1..]);
    }
  }

  /** Every deferred, uncompleted message was handed over since the restart, or its callback comes next. */
  ghost predicate AllHandedOver(w: World)
    requires w.phase.Receiving?
  {
    forall n :: n in w.deferred && n !in w.completed ==> n in w.since || w.phase.pending == Some(n)
  }

  lemma AllHandedOverIff(w: World)
    requires Inv(w) && w.phase.Receiving?
    ensures AllHandedOver(w) <==> w.missed <= w.completed
  {
    if w.missed <= w.completed {
      forall n | n in w.deferred && n !in w.completed
        ensures n in w.since || w.phase.pending == Some(n)
      {
        assert At(w.queue, n) == Some(Deferred);
      }
    }
    if AllHandedOver(w) {
      forall n | n in w.missed
        ensures n in w.completed
      {
        assert n in w.deferred && n !in w.since;
      }
    }
  }

  /**
   In any run whose receive loop does not fail, whenever recovery is over: every deferred,
   uncompleted message has been handed over since the restart, except the one whose callback comes
   next, if and only if every message collected for a failed callback of the recover loop has been
   completed meanwhile.
   */
  lemma FailedRecoveryHandsOverAllIff(steps: seq<Step>)
    requires Legal(EMPTY, steps) && forall i :: 0 <= i < |steps| ==> KeepsPhases(steps[i])
    requires Run(EMPTY, steps).phase.Receiving?
    ensures AllHandedOver(Run(EMPTY, steps)) <==> Run(EMPTY, steps).missed <= Run(EMPTY, steps).completed
  {
    RunKeepsInv(EMPTY, steps);
    AllHandedOverIff(Run(EMPTY, steps));
  }

  /** No call of the consumer fails, and no lock of an abandoned message ends. */
  predicate Succeeds(step: Step) {
    KeepsPhases(step) && !step.PeekFails?
  }

  lemma {:induction false} NothingMissed(w: World, steps: seq<Step>)
    requires w.missed == {} && Legal(w, steps) && forall i :: 0 <= i < |steps| ==> Succeeds(steps[i])
    ensures Run(w, steps).missed == {}
    decreases |steps|
  {
    if steps == [] {
    } else {
      NothingMissed(Next(w, steps[0]), steps[1..]);
    }
  }

  lemma CrashRecoversAll(w: World)
    requires Inv(w)
    ensures var crashed := Next(w, Crash);
            DeferredRun(crashed.queue) == AllDeferred(crashed.queue) && NoneBehind(crashed.queue)
  {
    StepKeepsInv(w, Crash);
    PhasedMeansRecoverable(Next(w, Crash).queue, []);
    PhasedMeansNoneBehind(Next(w, Crash).queue, []);
  }

  /**
   With one receiver and no failing call, over any run of arrivals, peeks, receptions, deferrals,
   callbacks, completions and crashes between any two of them: a crash leaves a queue whose recovery
   hands over exactly the deferred messages, all deferred and uncompleted ones; and whenever
   recovery is over, each of those has been handed over since the restart, except the one whose
   callback comes next.
   */
  lemma RestartRedeliversEveryDeferredMessage(steps: seq<Step>)
    requires Legal(EMPTY, steps) && forall i :: 0 <= i < |steps| ==> Succeeds(steps[i])
    ensures var w := Run(EMPTY, steps);
            var crashed := Next(w, Crash);
            && DeferredRun(crashed.queue) == AllDeferred(crashed.queue)
            && Recovers(crashed, w.deferred - w.completed)
            && (w.phase.Receiving? ==> AllHandedOver(w))
            && w.completed <= w.handed <= w.deferred
  {
    RunKeepsInv(EMPTY, steps);
    var w := Run(EMPTY, steps);
    CrashRecoversAll(w);
    CrashRecoversAllIff(steps);
    if w.phase.Receiving? {
      NothingMissed(EMPTY, steps);
      AllHandedOverIff(w);
    }
  }

  /** One more step in front of a run. */
  lemma StepFirst(w: World, step: Step, steps: seq<Step>)
    requires Enabled(w, step) && Legal(Next(w, step), steps)
    ensures Legal(w, [step] + steps) && Run(w, [step] + steps) == Run(Next(w, step), steps)
  {
    assert ([step] + steps)[1..] == steps;
  }

  const IDLE := Receiving([], None)

  /** Two messages arrive, and the first is received. */
  lemma TwoArrive() returns (w: World)
    ensures w == World([Message(0, Active), Message(1, Active)], 2, IDLE, {}, {}, {}, {}, {})
    ensures Next(Next(Next(EMPTY, Peek(BATCH)), Arrival(0)), Arrival(0)) == w
  {
    w := Next(Next(Next(EMPTY, Peek(BATCH)), Arrival(0)), Arrival(0));
    assert Next(EMPTY, Peek(BATCH)) == EMPTY.(phase := IDLE);
    assert w.queue == [Message(0, Active)] + [Message(1, Active)];
  }

  /** The second of the two is deferred and handed over, and then the consumer crashes. */
  lemma SecondIsHandedOver(w: World) returns (w': World)
    requires w == World([Message(0, Locked), Message(1, Locked)], 2, Receiving([1], None), {}, {}, {}, {}, {})
    ensures Legal(w, [DeferNext, HandOver]) && Run(w, [DeferNext, HandOver]) == w'
    ensures w'.queue == [Message(0, Locked), Message(1, Deferred)] && w'.handed == {1} && w'.completed == {}
  {
    assert w.queue[1..] == [Message(1, Locked)] && SetState([Message(1, Locked)], 1, Deferred) == [Message(1, Deferred)];
    var deferred := Next(w, DeferNext);
    assert deferred.queue == [Message(0, Locked)] + [Message(1, Deferred)];
    w' := Next(deferred, HandOver);
    StepFirst(deferred, HandOver, []);
    StepFirst(w, DeferNext, [HandOver]);
    assert [DeferNext] + [HandOver] == [DeferNext, HandOver] && [HandOver] + [] == [HandOver];
  }

  /** The first is received, its deferral fails, the second is received, deferred and handed over. */
  lemma FirstFails(w: World) returns (w': World)
    requires w == World([Message(0, Active), Message(1, Active)], 2, IDLE, {}, {}, {}, {}, {})
    ensures Legal(w, [Receive(1), Fail, Receive(1), DeferNext, HandOver])
    ensures Run(w, [Receive(1), Fail, Receive(1), DeferNext, HandOver]) == w'
    ensures w'.queue == [Message(0, Locked), Message(1, Deferred)] && w'.handed == {1} && w'.completed == {}
  {
    LockSecond(Message(0, Active));
    var received := Next(w, Receive(1));
    var failed := Next(received, Fail);
    LockSecond(Message(0, Locked));
    w' := SecondIsHandedOver(Next(failed, Receive(1)));
    StepFirst(failed, Receive(1), [DeferNext, HandOver]);
    assert [Receive(1)] + [DeferNext, HandOver] == [Receive(1), DeferNext, HandOver];
    StepFirst(received, Fail, [Receive(1), DeferNext, HandOver]);
    assert [Fail] + [Receive(1), DeferNext, HandOver] == [Fail, Receive(1), DeferNext, HandOver];
    StepFirst(w, Receive(1), [Fail, Receive(1), DeferNext, HandOver]);
    assert [Receive(1)] + [Fail, Receive(1), DeferNext, HandOver] == [Receive(1), Fail, Receive(1), DeferNext, HandOver];
  }

  /**
   That no call fails is needed. When deferring fails, the loop abandons the message and goes on
   with later ones; after a crash the one behind it is deferred, was handed over, and is not
   recovered.
   */
  lemma FailedDeferHidesLaterMessages() returns (steps: seq<Step>)
    ensures steps == [Peek(BATCH), Arrival(0), Arrival(0), Receive(1), Fail, Receive(1), DeferNext, HandOver]
    ensures Legal(EMPTY, steps)
    ensures var w := Run(EMPTY, steps);
            1 in w.handed && 1 !in w.completed && !Recovers(Next(w, Crash), w.handed - w.completed)
  {
    var arrived := TwoArrive();
    var w := FirstFails(arrived);
    var rest := [Receive(1), Fail, Receive(1), DeferNext, HandOver];
    var begun := Next(EMPTY, Peek(BATCH));
    StepFirst(Next(begun, Arrival(0)), Arrival(0), rest);
    StepFirst(begun, Arrival(0), [Arrival(0)] + rest);
    StepFirst(EMPTY, Peek(BATCH), [Arrival(0)] + ([Arrival(0)] + rest));
    steps := [Peek(BATCH)] + ([Arrival(0)] + ([Arrival(0)] + rest));
    LostAfterCrash(w);
  }

  lemma LostAfterCrash(w: World)
    requires w.queue == [Message(0, Locked), Message(1, Deferred)] && w.handed == {1} && w.completed == {}
    ensures !Recovers(Next(w, Crash), w.handed - w.completed)
  {
    assert w.queue[1..] == [Message(1, Deferred)] && ReleaseLocks([Message(1, Deferred)]) == [Message(1, Deferred)];
    assert Next(w, Crash).queue == [Message(0, Active)] + [Message(1, Deferred)];
    assert DeferredRun(Next(w, Crash).queue) == [] && 1 in w.handed - w.completed;
  }

  /** Locking one message of two locks the first active one. */
  lemma LockSecond(first: Message)
    requires first.state != Deferred && first.sequenceNumber == 0
    ensures LockFirst([first, Message(1, Active)], 1) ==
            if first.state == Active then ([Message(0, Locked), Message(1, Active)], [0])
            else ([first, Message(1, Locked)], [1])
  {
    var q := [first, Message(1, Active)];
    var rest := [Message(1, Active)];
    assert q[1..] == rest && LockFirst(rest, 0) == (rest, []) && rest[1..] == [] && LockFirst([], 0) == ([], []);
    assert LockFirst(rest[1..], 0) == ([], []);
    assert LockFirst(rest, 1).0 == [Message(1, Locked)] && LockFirst(rest, 1).1 == [1];
    assert LockFirst(q, 1).0 == if first.state == Active then [Message(0, Locked), Message(1, Active)]
                                else [first, Message(1, Locked)];
    assert LockFirst(q, 1).1 == if first.state == Active then [0] else [1];
  }
}
