/**
 The ServiceBus consumers: the loop that recovers deferred messages after a restart, the loop
 that receives and defers, and both composed. The queue and the subscription consumer run the
 same code over different clients.
 */
module ServiceBus {
  import opened Wrappers

  const BATCH := 50

  datatype State = Deferred | Locked | Active

  datatype Message = Message(sequenceNumber: nat, state: State)

  // ----- the broker ----------------------------------------------------------

  /** Sequence numbers increase along the queue; gaps are allowed. */
  ghost predicate Sorted(q: seq<Message>) {
    q == [] || (Within(q[1..], q[0].sequenceNumber + 1, None) && Sorted(q[1..]))
  }

  /** All sequence numbers of the queue lie in a range. */
  ghost predicate Within(q: seq<Message>, low: nat, high: Option<nat>) {
    forall m :: m in q ==> low <= m.sequenceNumber && (high.None? || m.sequenceNumber < high.value)
  }

  /** The messages from a sequence number on. */
  function From(q: seq<Message>, sequenceNumber: nat): seq<Message> {
    if q == [] || q[0].sequenceNumber >= sequenceNumber then q else From(q[1..], sequenceNumber)
  }

  /** The run of deferred messages that starts the queue. */
  function DeferredRun(q: seq<Message>): seq<Message> {
    if q == [] || q[0].state != Deferred then [] else [q[0]] + DeferredRun(q[1..])
  }

  /** All deferred messages. */
  function AllDeferred(q: seq<Message>): seq<Message> {
    if q == [] then [] else if q[0].state == Deferred then [q[0]] + AllDeferred(q[1..]) else AllDeferred(q[1..])
  }

  /** Completing removes messages, which only the holder of a deferred message's number can do. */
  function Without(q: seq<Message>, completed: set<nat>): seq<Message> {
    if q == [] then []
    else if q[0].state == Deferred && q[0].sequenceNumber in completed then Without(q[1..], completed)
    else [q[0]] + Without(q[1..], completed)
  }

  function SetState(q: seq<Message>, sequenceNumber: nat, state: State): seq<Message> {
    if q == [] then []
    else if q[0].sequenceNumber == sequenceNumber then [q[0].(state := state)] + q[1..]
    else [q[0]] + SetState(q[1..], sequenceNumber, state)
  }

  /** The first `count` messages that are neither deferred nor locked become locked. */
  function LockFirst(q: seq<Message>, count: nat): (seq<Message>, seq<nat>) {
    if q == [] || count == 0 then (q, [])
    else if q[0].state == Active then
      var (rest, numbers) := LockFirst(q[1..], count - 1);
      ([q[0].(state := Locked)] + rest, [q[0].sequenceNumber] + numbers)
    else
      var (rest, numbers) := LockFirst(q[1..], count);
      ([q[0]] + rest, numbers)
  }

  function ReleaseLocks(q: seq<Message>): seq<Message> {
    if q == [] then []
    else [if q[0].state == Locked then q[0].(state := Active) else q[0]] + ReleaseLocks(q[1..])
  }

  function Arrive(nextNumber: nat, gaps: seq<nat>): seq<Message>
    decreases |gaps|
  {
    if gaps == [] then []
    else [Message(nextNumber + gaps[0], Active)] + Arrive(nextNumber + gaps[0] + 1, gaps[1..])
  }

  function NumberAfter(nextNumber: nat, gaps: seq<nat>): nat
    decreases |gaps|
  {
    if gaps == [] then nextNumber else NumberAfter(nextNumber + gaps[0] + 1, gaps[1..])
  }

  /** What handlers and senders do to the queue while the consumer is between two calls. */
  datatype Change = Change(completed: set<nat>, gaps: seq<nat>)

  class QueueClient {
    var queue: seq<Message>
    var nextNumber: nat

    ghost predicate Valid()
      reads this
    {
      Sorted(queue) && Within(queue, 0, Some(nextNumber))
    }

    constructor ()
      ensures Valid() && queue == []
    {
      queue, nextNumber := [], 0;
    }

    method PeekBatch(fromNumber: nat, count: nat) returns (batch: seq<Message>)
      ensures batch == if |From(queue, fromNumber)| <= count then From(queue, fromNumber)
                       else From(queue, fromNumber)[..count]
    {
      var i := 0;
      while i < |queue| && queue[i].sequenceNumber < fromNumber
        invariant 0 <= i <= |queue|
        invariant From(queue, fromNumber) == From(queue[i..], fromNumber)
      {
        assert queue[i..][1..] == queue[i + 1..];
        i := i + 1;
      }
      assert From(queue, fromNumber) == queue[i..];
      batch := if |queue| - i <= count then queue[i..] else queue[i..i + count];
    }

    method ReceiveBatch(count: nat) returns (numbers: seq<nat>)
      modifies `queue
      ensures (queue, numbers) == LockFirst(old(queue), count)
    {
      var (q, n) := LockFirst(queue, count);
      queue, numbers := q, n;
    }

    method Defer(sequenceNumber: nat)
      modifies `queue
      ensures queue == SetState(old(queue), sequenceNumber, Deferred)
    {
      queue := SetState(queue, sequenceNumber, Deferred);
    }

    /** Handlers complete deferred messages, senders append; neither disturbs the phases of the queue. */
    method OthersAct(change: Change, ghost batch: seq<nat>)
      requires Valid()
      modifies this
      ensures Valid()
      ensures queue == Without(old(queue), change.completed) + Arrive(old(nextNumber), change.gaps)
      ensures nextNumber == NumberAfter(old(nextNumber), change.gaps)
      ensures old(Phased(queue, batch)) ==> Phased(queue, batch)
    {
      ghost var arrived := Arrive(nextNumber, change.gaps);
      WithoutIsSorted(queue, change.completed);
      ArriveIsSorted(nextNumber, change.gaps);
      SortedConcat(Without(queue, change.completed), arrived, nextNumber);
      if Phased(queue, batch) {
        CompleteKeepsPhases(queue, batch, change.completed);
        ArrivalKeepsPhases(Without(queue, change.completed), batch, arrived);
      }
      queue := Without(queue, change.completed) + Arrive(nextNumber, change.gaps);
      nextNumber := NumberAfter(nextNumber, change.gaps);
    }
  }

  lemma {:induction false} WithoutIsSorted(q: seq<Message>, completed: set<nat>)
    requires Sorted(q)
    ensures Sorted(Without(q, completed))
    ensures forall m :: m in Without(q, completed) ==> m in q
  {
    if q == [] {
    } else {
      WithoutIsSorted(q[1..], completed);
      assert Without(q, completed) == Without(q[1..], completed) ||
             Without(q, completed) == [q[0]] + Without(q[1..], completed);
      assert ([q[0]] + Without(q[1..], completed))[1..] == Without(q[1..], completed);
    }
  }

  lemma {:induction false} ArriveIsSorted(nextNumber: nat, gaps: seq<nat>)
    ensures Sorted(Arrive(nextNumber, gaps)) && nextNumber <= NumberAfter(nextNumber, gaps)
    ensures Within(Arrive(nextNumber, gaps), nextNumber, Some(NumberAfter(nextNumber, gaps)))
    ensures forall m :: m in Arrive(nextNumber, gaps) ==> m.state == Active
    decreases |gaps|
  {
    if gaps == [] {
    } else {
      ArriveIsSorted(nextNumber + gaps[0] + 1, gaps[1..]);
      assert Arrive(nextNumber, gaps)[1..] == Arrive(nextNumber + gaps[0] + 1, gaps[1..]);
    }
  }

  lemma {:induction false} SortedConcat(q: seq<Message>, arrived: seq<Message>, n: nat)
    requires Sorted(q) && Sorted(arrived) && Within(q, 0, Some(n)) && Within(arrived, n, None)
    ensures Sorted(q + arrived)
  {
    if q == [] {
      assert q + arrived == arrived;
    } else {
      SortedConcat(q[1..], arrived, n);
      assert (q + arrived)[1..] == q[1..] + arrived;
      assert q[0] in q;
    }
  }

  /**
   Receiving takes the first active messages, up to `count`, and changes nothing but their state:
   an active one is left only behind a full batch.
   */
  lemma {:induction false} ReceivedAreTheFirstActive(q: seq<Message>, count: nat)
    requires Sorted(q)
    ensures var (q', numbers) := LockFirst(q, count);
            && |numbers| <= count && |q'| == |q|
            && (forall n :: n in numbers ==> exists m :: m in q && m.sequenceNumber == n)
            && (forall m :: m in q && m.state == Active && m.sequenceNumber !in numbers ==>
                  |numbers| == count && forall n :: n in numbers ==> n < m.sequenceNumber)
            && (forall i :: 0 <= i < |q| ==>
                  q'[i] == Message(q[i].sequenceNumber, if q[i].sequenceNumber in numbers then Locked else q[i].state))
  {
    if q == [] || count == 0 {
    } else {
      var less := if q[0].state == Active then count - 1 else count;
      ReceivedAreTheFirstActive(q[1..], less);
      var (q', numbers) := LockFirst(q, count);
      var (rest, behind) := LockFirst(q[1..], less);
      assert q'[1..] == rest && numbers == if q[0].state == Active then [q[0].sequenceNumber] + behind else behind;
      assert forall m :: m in q <==> m == q[0] || m in q[1..];
    }
  }

  /** Arriving messages are active, one for each gap, with increasing numbers from `nextNumber` on. */
  lemma {:induction false} ArrivalsAreNumbered(nextNumber: nat, gaps: seq<nat>)
    ensures var arrived := Arrive(nextNumber, gaps);
            && |arrived| == |gaps|
            && (forall i :: 0 <= i < |gaps| ==>
                  arrived[i] == Message((if i == 0 then nextNumber else arrived[i - 1].sequenceNumber + 1) + gaps[i], Active))
            && NumberAfter(nextNumber, gaps) == if gaps == [] then nextNumber else arrived[|gaps| - 1].sequenceNumber + 1
    decreases |gaps|
  {
    if gaps == [] {
    } else {
      ArrivalsAreNumbered(nextNumber + gaps[0] + 1, gaps[1..]);
    }
  }

  // ----- the recover loop ----------------------------------------------------

  lemma {:induction false} FromSkips(q: seq<Message>, n: nat)
    requires Sorted(q) && From(q, n) != []
    ensures From(q, From(q, n)[0].sequenceNumber + 1) == From(q, n)[1..]
    ensures From(q, n)[0].sequenceNumber >= n && From(q, n)[0] in q
  {
    if q[0].sequenceNumber >= n {
      assert |q| > 1 ==> q[1..][0] in q[1..];
    } else {
      FromSkips(q[1..], n);
    }
  }

  lemma {:induction false} FromIsPart(q: seq<Message>, n: nat)
    requires Sorted(q)
    ensures forall m :: m in From(q, n) ==> m in q && n <= m.sequenceNumber
  {
    if q == [] || q[0].sequenceNumber >= n {
    } else {
      FromIsPart(q[1..], n);
    }
  }

  lemma {:induction false} RunIsDeferred(q: seq<Message>)
    ensures DeferredRun(q) <= q && forall m :: m in DeferredRun(q) ==> m.state == Deferred
    ensures |DeferredRun(q)| < |q| ==> q[|DeferredRun(q)|].state != Deferred
  {
    if q == [] || q[0].state != Deferred {
    } else {
      RunIsDeferred(q[1..]);
    }
  }

  /** Changes by others only take completed messages out of the deferred run from `n` on. */
  lemma {:induction false} OthersThinTheRun(q: seq<Message>, n: nat, completed: set<nat>, arrived: seq<Message>)
    requires Sorted(q) && forall m :: m in arrived ==> m.state == Active && m.sequenceNumber >= n
    ensures DeferredRun(From(Without(q, completed) + arrived, n)) == Without(DeferredRun(From(q, n)), completed)
  {
    if q != [] && q[0].sequenceNumber < n {
      OthersBelow(q, n, completed, arrived);
      OthersThinTheRun(q[1..], n, completed, arrived);
    } else {
      var after := Without(q, completed) + arrived;
      WithoutIsSorted(q, completed);
      assert forall m :: m in q ==> n <= m.sequenceNumber;
      assert after != [] ==> after[0] in after;
      assert From(after, n) == after;
      RunThins(q, completed, arrived);
    }
  }

  /** What happens to a first message below `n` is not seen from `n` on. */
  lemma OthersBelow(q: seq<Message>, n: nat, completed: set<nat>, arrived: seq<Message>)
    requires q != [] && q[0].sequenceNumber < n
    ensures From(Without(q, completed) + arrived, n) == From(Without(q[1..], completed) + arrived, n)
  {
    var rest := Without(q[1..], completed) + arrived;
    if q[0].state == Deferred && q[0].sequenceNumber in completed {
      assert Without(q, completed) == Without(q[1..], completed);
    } else {
      assert Without(q, completed) + arrived == [q[0]] + rest;
      assert ([q[0]] + rest)[1..] == rest;
    }
  }

  lemma {:induction false} RunThins(q: seq<Message>, completed: set<nat>, arrived: seq<Message>)
    requires forall m :: m in arrived ==> m.state == Active
    ensures DeferredRun(Without(q, completed) + arrived) == Without(DeferredRun(q), completed)
  {
    if q == [] {
      assert Without(q, completed) + arrived == arrived;
      assert arrived != [] ==> arrived[0] in arrived;
    } else {
      RunThins(q[1..], completed, arrived);
      var rest := Without(q[1..], completed) + arrived;
      if q[0].state == Deferred && q[0].sequenceNumber in completed {
        assert Without(q, completed) == Without(q[1..], completed);
        assert DeferredRun(q)[1..] == DeferredRun(q[1..]);
      } else {
        assert Without(q, completed) + arrived == [q[0]] + rest && ([q[0]] + rest)[1..] == rest;
        if q[0].state == Deferred {
          assert DeferredRun(q)[1..] == DeferredRun(q[1..]);
        }
      }
    }
  }

  lemma {:induction false} WithoutConcat(q: seq<Message>, r: seq<Message>, completed: set<nat>)
    ensures Without(q + r, completed) == Without(q, completed) + Without(r, completed)
  {
    if q == [] {
      assert q + r == r;
    } else {
      assert (q + r)[1..] == q[1..] + r;
      WithoutConcat(q[1..], r, completed);
    }
  }

  lemma {:induction false} WithoutTwice(q: seq<Message>, first: set<nat>, second: set<nat>)
    ensures Without(Without(q, first), second) == Without(q, first + second)
  {
    if q == [] {
    } else {
      WithoutTwice(q[1..], first, second);
      if q[0].state == Deferred && q[0].sequenceNumber in first {
        assert Without(q, first) == Without(q[1..], first);
      } else {
        assert Without(q, first)[1..] == Without(q[1..], first);
      }
    }
  }

  /** Only the numbers that are there matter. */
  lemma {:induction false} WithoutSame(q: seq<Message>, completed: set<nat>, others: set<nat>)
    requires forall m :: m in q ==> (m.sequenceNumber in completed <==> m.sequenceNumber in others)
    ensures Without(q, completed) == Without(q, others) && |Without(q, completed)| <= |q|
  {
    if q == [] {
    } else {
      assert q[0] in q;
      WithoutSame(q[1..], completed, others);
    }
  }

  lemma {:induction false} WithoutNothing(q: seq<Message>)
    ensures Without(q, {}) == q
  {
    if q == [] {
    } else {
      WithoutNothing(q[1..]);
    }
  }

  lemma {:induction false} RunSplits(q: seq<Message>, i: nat)
    requires i <= |q| && forall k :: 0 <= k < i ==> q[k].state == Deferred
    ensures DeferredRun(q) == q[..i] + DeferredRun(q[i..])
  {
    if i == 0 {
      assert q[0..] == q;
    } else {
      RunSplits(q[1..], i - 1);
      assert q[1..][..i - 1] == q[1..i] && q[1..][i - 1..] == q[i..];
      assert q[..i] == [q[0]] + q[1..i];
    }
  }

  // ----- what others do meanwhile --------------------------------------------

  function Numbers(q: seq<Message>): seq<nat> {
    if q == [] then [] else [q[0].sequenceNumber] + Numbers(q[1..])
  }

  /** The numbers of all deferred messages, in queue order. */
  function DeferredNumbers(q: seq<Message>): seq<nat> {
    if q == [] then []
    else if q[0].state == Deferred then [q[0].sequenceNumber] + DeferredNumbers(q[1..])
    else DeferredNumbers(q[1..])
  }

  /** The numbers that are left when some are taken out. */
  function Removed(numbers: seq<nat>, completed: set<nat>): seq<nat> {
    if numbers == [] then []
    else if numbers[0] in completed then Removed(numbers[1..], completed)
    else [numbers[0]] + Removed(numbers[1..], completed)
  }

  /** What completing leaves, of a queue and of numbers, and what counts as deferred. */
  lemma {:induction false} Remaining(q: seq<Message>, numbers: seq<nat>, completed: set<nat>)
    ensures forall m :: m in Without(q, completed) <==> m in q && !(m.state == Deferred && m.sequenceNumber in completed)
    ensures forall n :: n in Removed(numbers, completed) <==> n in numbers && n !in completed
    ensures forall m :: m in AllDeferred(q) <==> m in q && m.state == Deferred
    decreases |q| + |numbers|
  {
    if q != [] {
      Remaining(q[1..], numbers, completed);
    } else if numbers != [] {
      Remaining(q, numbers[1..], completed);
    }
  }

  ghost predicate Ascending(numbers: seq<nat>) {
    forall i, j :: 0 <= i < j < |numbers| ==> numbers[i] < numbers[j]
  }

  /** Every message that is not deferred has at least this number. */
  ghost predicate UndeferredFrom(q: seq<Message>, low: nat) {
    forall m :: m in q && m.state != Deferred ==> m.sequenceNumber >= low
  }

  lemma {:induction false} NumbersConcat(q: seq<Message>, r: seq<Message>)
    ensures Numbers(q + r) == Numbers(q) + Numbers(r)
  {
    if q == [] {
      assert q + r == r;
    } else {
      assert (q + r)[1..] == q[1..] + r;
      NumbersConcat(q[1..], r);
    }
  }

  lemma {:induction false} DeferredNumbersAre(q: seq<Message>)
    ensures DeferredNumbers(q) == Numbers(AllDeferred(q))
  {
    if q == [] {
    } else {
      DeferredNumbersAre(q[1..]);
      if q[0].state == Deferred {
        assert AllDeferred(q)[1..] == AllDeferred(q[1..]);
      } else {
        assert AllDeferred(q) == AllDeferred(q[1..]);
      }
    }
  }

  /** Completing takes exactly the completed numbers out, and arrivals bring no deferred message. */
  lemma {:induction false} CompletionRemoves(q: seq<Message>, completed: set<nat>, arrived: seq<Message>)
    requires forall m :: m in arrived ==> m.state == Active
    ensures DeferredNumbers(Without(q, completed) + arrived) == Removed(DeferredNumbers(q), completed)
  {
    if q == [] {
      assert Without(q, completed) + arrived == arrived;
      NoneDeferredArrive(arrived);
    } else {
      CompletionRemoves(q[1..], completed, arrived);
      var rest := Without(q[1..], completed) + arrived;
      if q[0].state == Deferred && q[0].sequenceNumber in completed {
        assert Without(q, completed) == Without(q[1..], completed);
        assert DeferredNumbers(q)[1..] == DeferredNumbers(q[1..]);
      } else {
        assert Without(q, completed) + arrived == [q[0]] + rest && ([q[0]] + rest)[1..] == rest;
        if q[0].state == Deferred {
          assert DeferredNumbers(q)[1..] == DeferredNumbers(q[1..]);
        } else {
          assert DeferredNumbers(q) == DeferredNumbers(q[1..]);
        }
      }
    }
  }

  lemma {:induction false} NoneDeferredArrive(arrived: seq<Message>)
    requires forall m :: m in arrived ==> m.state == Active
    ensures DeferredNumbers(arrived) == []
  {
    if arrived == [] {
    } else {
      assert arrived[0] in arrived;
      NoneDeferredArrive(arrived[1..]);
    }
  }

  lemma {:induction false} RemovedTwice(numbers: seq<nat>, first: set<nat>, second: set<nat>)
    ensures Removed(Removed(numbers, first), second) == Removed(numbers, first + second)
  {
    if numbers == [] {
    } else {
      RemovedTwice(numbers[1..], first, second);
      if numbers[0] in first {
        assert Removed(numbers, first) == Removed(numbers[1..], first);
      } else {
        assert Removed(numbers, first)[1..] == Removed(numbers[1..], first);
      }
    }
  }

  /** A number that is not completed stays when it is added at the end. */
  lemma {:induction false} RemovedSnoc(numbers: seq<nat>, completed: set<nat>, n: nat)
    requires n !in completed
    ensures Removed(numbers + [n], completed) == Removed(numbers, completed) + [n]
  {
    if numbers == [] {
      assert [] + [n] == [n] && [n][1..] == [];
    } else {
      RemovedSnoc(numbers[1..], completed, n);
      assert (numbers + [n])[1..] == numbers[1..] + [n];
    }
  }

  lemma {:induction false} NothingRemoved(numbers: seq<nat>)
    ensures Removed(numbers, {}) == numbers
  {
    if numbers == [] {
    } else {
      NothingRemoved(numbers[1..]);
    }
  }

  /** A number below everything undeferred stays below, whatever arrives. */
  ghost predicate KeepsBounds(q: seq<Message>, nextNumber: nat, q': seq<Message>) {
    forall low: nat :: low <= nextNumber && UndeferredFrom(q, low) ==> UndeferredFrom(q', low)
  }

  /**
   Between two calls of the consumer, handlers complete messages they were handed and senders add
   messages. `handed` may hold what was handed over before the consumer was started.
   */
  method HandlersAct(client: QueueClient, change: Change, handed: seq<nat>, ghost batch: seq<nat>)
    returns (completed: set<nat>)
    requires client.Valid()
    modifies client
    ensures client.Valid() && old(client.nextNumber) <= client.nextNumber
    ensures KeepsBounds(old(client.queue), old(client.nextNumber), client.queue)
    ensures forall n :: n in completed ==> n in handed
    ensures client.queue == Without(old(client.queue), completed) + Arrive(old(client.nextNumber), change.gaps)
    ensures old(Phased(client.queue, batch)) ==> Phased(client.queue, batch)
    ensures DeferredNumbers(client.queue) == Removed(old(DeferredNumbers(client.queue)), completed)
  {
    completed := set n | n in handed && n in change.completed;
    ArriveIsSorted(client.nextNumber, change.gaps);
    WithoutIsSorted(client.queue, completed);
    CompletionRemoves(client.queue, completed, Arrive(client.nextNumber, change.gaps));
    client.OthersAct(Change(completed, change.gaps), batch);
  }

  // ----- the recover loop: the method ----------------------------------------

  /** If the next message from `n` on is deferred, the undeferred ones start behind it. */
  lemma {:induction false} DeferredIsPassed(q: seq<Message>, n: nat)
    requires Sorted(q) && UndeferredFrom(q, n) && From(q, n) != [] && From(q, n)[0].state == Deferred
    ensures UndeferredFrom(q, From(q, n)[0].sequenceNumber + 1)
  {
    if q[0].sequenceNumber >= n {
      assert forall m :: m in q ==> m == q[0] || m in q[1..];
    } else {
      DeferredIsPassed(q[1..], n);
      assert forall m :: m in q ==> m == q[0] || m in q[1..];
      assert q[0] in q;
    }
  }

  /** The loop over one peeked batch: it collects messages up to the first that is not deferred. */
  method CollectDeferred(ghost q: seq<Message>, batch: seq<Message>, fromNumber: nat)
    returns (contexts: seq<Message>, sequenceNumber: nat, needPeek: bool)
    requires Sorted(q) && batch <= From(q, fromNumber) && UndeferredFrom(q, fromNumber)
    ensures contexts <= batch && fromNumber <= sequenceNumber && UndeferredFrom(q, sequenceNumber)
    ensures forall m :: m in contexts ==> m.sequenceNumber < sequenceNumber
    ensures DeferredRun(From(q, fromNumber)) == contexts + DeferredRun(From(q, sequenceNumber))
    ensures needPeek ==> contexts == batch
    ensures !needPeek ==> DeferredRun(From(q, sequenceNumber)) == []
    ensures sequenceNumber == fromNumber || exists m :: m in q && sequenceNumber == m.sequenceNumber + 1
  {
    contexts, sequenceNumber, needPeek := [], fromNumber, true;
    ghost var rest := From(q, fromNumber);
    var i := 0;
    while i < |batch|
      invariant 0 <= i <= |batch| && contexts == batch[..i] && needPeek
      invariant forall k :: 0 <= k < i ==> batch[k].state == Deferred && batch[k].sequenceNumber < sequenceNumber
      invariant From(q, sequenceNumber) == rest[i..]
      invariant fromNumber <= sequenceNumber && UndeferredFrom(q, sequenceNumber)
      invariant sequenceNumber == fromNumber || exists m :: m in q && sequenceNumber == m.sequenceNumber + 1
    {
      assert rest[i..][0] == batch[i] && rest[i..][1..] == rest[i + 1..];
      if batch[i].state != Deferred {
        needPeek := false;
        break;
      }
      FromSkips(q, sequenceNumber);
      DeferredIsPassed(q, sequenceNumber);
      contexts := contexts + [batch[i]];
      sequenceNumber := batch[i].sequenceNumber + 1;
      i := i + 1;
    }
    RunSplits(rest, i);
  }

  lemma Associative(a: seq<Message>, b: seq<Message>, c: seq<Message>)
    ensures a + (b + c) == (a + b) + c && (c == [] ==> a + b + c == a + b)
  {
  }

  /** One turn of the recover loop up to its peek: others act, and only completed messages leave the run still to come. */
  method ActBeforePeek(client: QueueClient, change: Change, handed: seq<nat>, sequenceNumber: nat)
    returns (completed: set<nat>)
    requires client.Valid() && sequenceNumber <= client.nextNumber && UndeferredFrom(client.queue, sequenceNumber)
    modifies client
    ensures client.Valid() && sequenceNumber <= client.nextNumber && UndeferredFrom(client.queue, sequenceNumber)
    ensures old(client.nextNumber) <= client.nextNumber
    ensures KeepsBounds(old(client.queue), old(client.nextNumber), client.queue)
    ensures forall n :: n in completed ==> n in handed
    ensures DeferredRun(From(client.queue, sequenceNumber)) ==
            Without(old(DeferredRun(From(client.queue, sequenceNumber))), completed)
    ensures old(Phased(client.queue, [])) ==> Phased(client.queue, [])
    ensures DeferredNumbers(client.queue) == Removed(old(DeferredNumbers(client.queue)), completed)
  {
    ghost var q, arrived := client.queue, Arrive(client.nextNumber, change.gaps);
    ArriveIsSorted(client.nextNumber, change.gaps);
    completed := HandlersAct(client, change, handed, []);
    OthersThinTheRun(q, sequenceNumber, completed, arrived);
  }

  /**
   Where the recover loop stands: what was handed over and the deferred run that is still to come
   make up the run found at the start, without the messages in `gone`, which handlers from before
   the start completed before their turn came.
   */
  ghost predicate Recovering(client: QueueClient, earlier: seq<nat>, delivered: seq<Message>, sequenceNumber: nat,
                             run: seq<Message>, before: seq<nat>, completed: set<nat>, gone: set<nat>)
    reads client
  {
    && client.Valid() && sequenceNumber <= client.nextNumber && UndeferredFrom(client.queue, sequenceNumber)
    && delivered + DeferredRun(From(client.queue, sequenceNumber)) == Without(run, gone)
    && (forall m :: m in delivered ==> m.sequenceNumber < sequenceNumber)
    && (forall n :: n in completed ==> n in Numbers(delivered) + earlier)
    && gone <= completed && (forall n :: n in gone ==> n in earlier)
    && DeferredNumbers(client.queue) == Removed(before, completed)
  }

  /** Completions thin what is still to come by those of them that lie ahead. */
  lemma ThinnedAhead(delivered: seq<Message>, rest: seq<Message>, run: seq<Message>, sequenceNumber: nat,
                     gone: set<nat>, done: set<nat>) returns (gone': set<nat>)
    requires delivered + rest == Without(run, gone)
    requires forall m :: m in delivered ==> m.sequenceNumber < sequenceNumber
    requires forall m :: m in rest ==> sequenceNumber <= m.sequenceNumber
    ensures delivered + Without(rest, done) == Without(run, gone')
    ensures gone <= gone' && forall n :: n in gone' ==> n in gone || (n in done && sequenceNumber <= n)
  {
    var ahead := set n | n in done && sequenceNumber <= n;
    gone' := gone + ahead;
    WithoutTwice(run, gone, ahead);
    WithoutConcat(delivered, rest, ahead);
    WithoutSame(delivered, ahead, {});
    WithoutNothing(delivered);
    WithoutSame(rest, ahead, done);
  }

  /** The turn's others act: the loop stands where it stood, with more completed. */
  method RecoverTurnBegins(client: QueueClient, change: Change, earlier: seq<nat>, delivered: seq<Message>,
                           fromNumber: nat, ghost run: seq<Message>, ghost before: seq<nat>,
                           ghost completed: set<nat>, ghost gone: set<nat>)
    returns (ghost completed': set<nat>, ghost gone': set<nat>)
    requires Recovering(client, earlier, delivered, fromNumber, run, before, completed, gone)
    modifies client
    ensures Recovering(client, earlier, delivered, fromNumber, run, before, completed', gone')
    ensures old(Phased(client.queue, [])) ==> Phased(client.queue, [])
    ensures old(client.nextNumber) <= client.nextNumber
    ensures KeepsBounds(old(client.queue), old(client.nextNumber), client.queue)
  {
    ghost var rest := DeferredRun(From(client.queue, fromNumber));
    FromIsPart(client.queue, fromNumber);
    RunIsDeferred(From(client.queue, fromNumber));
    ghost var done := ActBeforePeek(client, change, Numbers(delivered) + earlier, fromNumber);
    RemovedTwice(before, completed, done);
    completed' := completed + done;
    gone' := ThinnedAhead(delivered, rest, run, fromNumber, gone, done);
    NumberMembers(delivered);
  }

  /** One turn of the recover loop; `ended` says that the peek found no message. */
  method RecoverTurn(client: QueueClient, change: Change, earlier: seq<nat>, delivered: seq<Message>,
                     fromNumber: nat, ghost run: seq<Message>, ghost before: seq<nat>,
                     ghost completed: set<nat>, ghost gone: set<nat>)
    returns (delivered': seq<Message>, sequenceNumber: nat, needPeek: bool, ended: bool,
             ghost completed': set<nat>, ghost gone': set<nat>)
    requires Recovering(client, earlier, delivered, fromNumber, run, before, completed, gone)
    modifies client
    ensures Recovering(client, earlier, delivered', sequenceNumber, run, before, completed', gone')
    ensures needPeek && !ended ==> |delivered| < |delivered'|
    ensures !needPeek || ended ==> delivered' == Without(run, gone')
    ensures old(Phased(client.queue, [])) ==> Phased(client.queue, [])
    ensures old(client.nextNumber) <= client.nextNumber
    ensures KeepsBounds(old(client.queue), old(client.nextNumber), client.queue)
  {
    completed', gone' := RecoverTurnBegins(client, change, earlier, delivered, fromNumber, run, before, completed, gone);
    delivered', sequenceNumber, needPeek, ended := delivered, fromNumber, true, false;
    var batch := client.PeekBatch(fromNumber, BATCH);
    if |batch| == 0 {
      ended := true;
      return;
    }
    var contexts;
    contexts, sequenceNumber, needPeek := CollectDeferred(client.queue, batch, fromNumber);
    NumbersConcat(delivered, contexts);
    Associative(delivered, contexts, DeferredRun(From(client.queue, sequenceNumber)));
    delivered' := delivered + contexts;
  }

  /**
   The recover loop. Between any two peeks handlers may complete messages they were handed, in this
   run or, by `earlier`, before the consumer was started, and senders may add messages. Unless it
   is cancelled, the loop ends and hands over exactly the run of deferred messages at the start of
   the queue it found, each once and in order, but for those in `gone`, which handlers from before
   the start completed first. It leaves the queue's phases, and its deferred messages but for
   completions, as they were; `low` separates what was handed over from what is not deferred yet.
   */
  method RecoverDeferred(client: QueueClient, earlier: seq<nat>, changes: nat -> Change, cancelAt: Option<nat>)
    returns (delivered: seq<Message>, cancelled: bool, ghost completed: set<nat>, ghost gone: set<nat>, ghost low: nat)
    requires client.Valid()
    modifies client
    ensures client.Valid() && old(client.nextNumber) <= client.nextNumber
    ensures !cancelled ==> delivered == Without(DeferredRun(old(client.queue)), gone)
    ensures cancelled ==> delivered <= Without(DeferredRun(old(client.queue)), gone) && cancelAt.Some?
    ensures gone <= completed && forall n :: n in gone ==> n in earlier
    ensures earlier == [] && !cancelled ==> delivered == DeferredRun(old(client.queue))
    ensures old(Phased(client.queue, [])) ==> Phased(client.queue, [])
    ensures KeepsBounds(old(client.queue), old(client.nextNumber), client.queue)
    ensures DeferredNumbers(client.queue) == Removed(old(DeferredNumbers(client.queue)), completed)
    ensures forall n :: n in completed ==> n in Numbers(delivered) + earlier
    ensures low <= client.nextNumber && UndeferredFrom(client.queue, low)
    ensures forall m :: m in delivered ==> m.sequenceNumber < low
  {
    var needPeek := true;
    var sequenceNumber: nat := 0;
    ghost var run, before := DeferredRun(client.queue), DeferredNumbers(client.queue);
    NothingRemoved(before);
    WithoutNothing(run);
    assert From(client.queue, 0) == client.queue;
    delivered, cancelled, completed, gone, low := [], false, {}, {}, 0;
    var round := 0;
    while needPeek
      invariant Recovering(client, earlier, delivered, sequenceNumber, run, before, completed, gone)
      invariant low == sequenceNumber && old(client.nextNumber) <= client.nextNumber
      invariant !needPeek ==> delivered == Without(run, gone)
      invariant old(Phased(client.queue, [])) ==> Phased(client.queue, [])
      invariant KeepsBounds(old(client.queue), old(client.nextNumber), client.queue)
      decreases needPeek, |run| - |delivered|
    {
      if cancelAt == Some(round) {
        return delivered, true, completed, gone, low;
      }
      WithoutSame(run, gone, gone);
      var ended;
      delivered, sequenceNumber, needPeek, ended, completed, gone :=
        RecoverTurn(client, changes(round), earlier, delivered, sequenceNumber, run, before, completed, gone);
      low := sequenceNumber;
      if ended {
        break;
      }
      round := round + 1;
    }
    assert earlier == [] ==> gone == {};
  }

  /** No deferred message stands behind one that is not deferred. */
  ghost predicate NoneBehind(q: seq<Message>) {
    forall i, j :: 0 <= i < j < |q| && q[j].state == Deferred ==> q[i].state == Deferred
  }

  /**
   The recover loop hands over every deferred message if and only if none stands behind a
   message that is not deferred.
   */
  lemma {:induction false} RecoversAllIff(q: seq<Message>)
    ensures DeferredRun(q) == AllDeferred(q) <==> NoneBehind(q)
  {
    if q == [] {
    } else {
      var rest := q[1..];
      assert forall i :: 0 <= i < |rest| ==> rest[i] == q[i + 1];
      if q[0].state == Deferred {
        RecoversAllIff(rest);
        assert DeferredRun(q)[1..] == DeferredRun(rest) && AllDeferred(q)[1..] == AllDeferred(rest);
        if NoneBehind(rest) {
          forall i, j | 0 <= i < j < |q| && q[j].state == Deferred
            ensures q[i].state == Deferred
          {
            assert i > 0 ==> rest[i - 1] == q[i] && rest[j - 1] == q[j];
          }
        }
      } else {
        NoneDeferred(rest);
        assert AllDeferred(q) == AllDeferred(rest);
        if NoneBehind(q) {
          forall i | 0 <= i < |rest|
            ensures rest[i].state != Deferred
          {
            assert q[i + 1] == rest[i] && q[0].state != Deferred;
          }
        } else {
          var i, j :| 0 <= i < j < |q| && q[j].state == Deferred && q[i].state != Deferred;
          assert rest[j - 1] == q[j];
        }
      }
    }
  }

  lemma {:induction false} NoneDeferred(q: seq<Message>)
    ensures AllDeferred(q) == [] <==> forall i :: 0 <= i < |q| ==> q[i].state != Deferred
  {
    if q == [] {
    } else {
      assert forall i :: 0 <= i < |q[1..]| ==> q[1..][i] == q[i + 1];
      NoneDeferred(q[1..]);
    }
  }

  // ----- the receive loop ----------------------------------------------------

  /** A queue of active messages, and one of locked ones in batch order followed by active ones. */
  ghost predicate LockedThenActive(q: seq<Message>, batch: seq<nat>) {
    if q == [] then batch == []
    else if q[0].state == Locked then
      batch != [] && batch[0] == q[0].sequenceNumber && LockedThenActive(q[1..], batch[1..])
    else q[0].state == Active && batch == [] && LockedThenActive(q[1..], [])
  }

  /** Deferred messages first, then the received batch still locked, then the active ones. */
  ghost predicate Phased(q: seq<Message>, batch: seq<nat>) {
    if q != [] && q[0].state == Deferred then Phased(q[1..], batch) else LockedThenActive(q, batch)
  }

  lemma {:induction false} ReceiveKeepsPhases(q: seq<Message>, count: nat)
    requires Phased(q, [])
    ensures Phased(LockFirst(q, count).0, LockFirst(q, count).1)
  {
    if q == [] || count == 0 {
    } else {
      if q[0].state == Deferred {
        ReceiveKeepsPhases(q[1..], count);
      } else {
        LockKeepsPhases(q, count);
      }
    }
  }

  lemma {:induction false} LockKeepsPhases(q: seq<Message>, count: nat)
    requires LockedThenActive(q, [])
    ensures LockedThenActive(LockFirst(q, count).0, LockFirst(q, count).1)
  {
    if q == [] || count == 0 {
    } else {
      LockKeepsPhases(q[1..], count - 1);
    }
  }

  lemma {:induction false} DeferKeepsPhases(q: seq<Message>, batch: seq<nat>)
    requires Sorted(q) && Phased(q, batch) && batch != []
    ensures Phased(SetState(q, batch[0], Deferred), batch[1..])
  {
    assert q != [];
    if q[0].state == Deferred {
      FirstOfBatch(q[1..], batch);
      DeferKeepsPhases(q[1..], batch);
      assert q[0].sequenceNumber != batch[0];
    } else {
      LockedIsPhased(q[1..], batch[1..]);
    }
  }

  lemma LockedIsPhased(q: seq<Message>, batch: seq<nat>)
    requires LockedThenActive(q, batch)
    ensures Phased(q, batch)
  {
  }

  /** The first message of the batch is in the queue, and not deferred yet. */
  lemma {:induction false} FirstOfBatch(q: seq<Message>, batch: seq<nat>)
    requires Phased(q, batch) && batch != []
    ensures exists m :: m in q && m.state == Locked && m.sequenceNumber == batch[0]
  {
    if q[0].state == Deferred {
      FirstOfBatch(q[1..], batch);
    } else {
      assert q[0] in q;
    }
  }

  lemma {:induction false} CompleteKeepsPhases(q: seq<Message>, batch: seq<nat>, completed: set<nat>)
    requires Phased(q, batch)
    ensures Phased(Without(q, completed), batch)
  {
    if q != [] && q[0].state == Deferred {
      CompleteKeepsPhases(q[1..], batch, completed);
      if q[0].sequenceNumber in completed {
        assert Without(q, completed) == Without(q[1..], completed);
      } else {
        assert Without(q, completed)[1..] == Without(q[1..], completed);
      }
    } else {
      UndeferredStay(q, batch, completed);
    }
  }

  lemma {:induction false} UndeferredStay(q: seq<Message>, batch: seq<nat>, completed: set<nat>)
    requires LockedThenActive(q, batch)
    ensures Without(q, completed) == q
  {
    if q == [] {
    } else {
      UndeferredStay(q[1..], if q[0].state == Locked then batch[1..] else [], completed);
    }
  }

  lemma {:induction false} ArrivalKeepsPhases(q: seq<Message>, batch: seq<nat>, arrived: seq<Message>)
    requires Phased(q, batch) && forall m :: m in arrived ==> m.state == Active
    ensures Phased(q + arrived, batch)
  {
    if q != [] && q[0].state == Deferred {
      assert (q + arrived)[1..] == q[1..] + arrived;
      ArrivalKeepsPhases(q[1..], batch, arrived);
    } else {
      ActiveAtTheEnd(q, batch, arrived);
    }
  }

  lemma {:induction false} ActiveAtTheEnd(q: seq<Message>, batch: seq<nat>, arrived: seq<Message>)
    requires LockedThenActive(q, batch) && forall m :: m in arrived ==> m.state == Active
    ensures LockedThenActive(q + arrived, batch)
    ensures q == [] || q[0].state != Deferred
    decreases |q| + |arrived|
  {
    if q == [] {
      assert q + arrived == arrived;
      if arrived != [] {
        assert arrived[0] in arrived;
        ActiveAtTheEnd([], [], arrived[1..]);
        assert [] + arrived[1..] == arrived[1..];
      }
    } else {
      assert (q + arrived)[1..] == q[1..] + arrived;
      ActiveAtTheEnd(q[1..], if q[0].state == Locked then batch[1..] else [], arrived);
    }
  }

  lemma {:induction false} ReleaseKeepsPhases(q: seq<Message>, batch: seq<nat>)
    requires Phased(q, batch)
    ensures Phased(ReleaseLocks(q), [])
  {
    if q != [] && q[0].state == Deferred {
      ReleaseKeepsPhases(q[1..], batch);
    } else {
      ReleasedAreActive(q, batch);
    }
  }

  lemma {:induction false} ReleasedAreActive(q: seq<Message>, batch: seq<nat>)
    requires LockedThenActive(q, batch)
    ensures LockedThenActive(ReleaseLocks(q), [])
  {
    if q == [] {
    } else {
      ReleasedAreActive(q[1..], if q[0].state == Locked then batch[1..] else []);
    }
  }

  /** In a phased queue the deferred messages are exactly the run that recovery hands over. */
  lemma {:induction false} PhasedMeansRecoverable(q: seq<Message>, batch: seq<nat>)
    requires Phased(q, batch)
    ensures DeferredRun(q) == AllDeferred(q)
  {
    if q == [] {
    } else {
      if q[0].state == Deferred {
        PhasedMeansRecoverable(q[1..], batch);
      } else {
        NoDeferredHere(q, batch);
      }
    }
  }

  lemma {:induction false} NoDeferredHere(q: seq<Message>, batch: seq<nat>)
    requires LockedThenActive(q, batch)
    ensures AllDeferred(q) == []
  {
    if q == [] {
    } else {
      NoDeferredHere(q[1..], if q[0].state == Locked then batch[1..] else []);
    }
  }

  /** Order and range of a queue depend on its numbers only. */
  lemma {:induction false} SameNumbers(q: seq<Message>, q': seq<Message>, high: nat)
    requires Numbers(q) == Numbers(q') && Sorted(q) && Within(q, 0, Some(high))
    ensures Sorted(q') && Within(q', 0, Some(high))
  {
    NumberMembers(q);
    NumberMembers(q');
    if q == [] {
    } else {
      assert Numbers(q)[1..] == Numbers(q[1..]) && Numbers(q')[1..] == Numbers(q'[1..]);
      NumberMembers(q[1..]);
      NumberMembers(q'[1..]);
      assert Within(q'[1..], q'[0].sequenceNumber + 1, None) by {
        forall m | m in q'[1..]
          ensures q'[0].sequenceNumber + 1 <= m.sequenceNumber
        {
          assert m.sequenceNumber in Numbers(q[1..]);
        }
      }
      SameNumbers(q[1..], q'[1..], high);
    }
  }

  lemma {:induction false} NumberMembers(q: seq<Message>)
    ensures forall m :: m in q ==> m.sequenceNumber in Numbers(q)
    ensures forall n :: n in Numbers(q) ==> exists m :: m in q && m.sequenceNumber == n
  {
    if q == [] {
    } else {
      NumberMembers(q[1..]);
      forall n | n in Numbers(q)
        ensures exists m :: m in q && m.sequenceNumber == n
      {
        if n == q[0].sequenceNumber {
          assert q[0] in q;
        } else {
          assert n in Numbers(q[1..]);
        }
      }
    }
  }

  lemma {:induction false} SetStateKeepsNumbers(q: seq<Message>, n: nat, state: State)
    ensures Numbers(SetState(q, n, state)) == Numbers(q)
  {
    if q == [] {
    } else {
      SetStateKeepsNumbers(q[1..], n, state);
    }
  }

  lemma {:induction false} LockKeepsNumbers(q: seq<Message>, count: nat)
    ensures Numbers(LockFirst(q, count).0) == Numbers(q)
  {
    if q == [] || count == 0 {
    } else {
      LockKeepsNumbers(q[1..], if q[0].state == Active then count - 1 else count);
    }
  }

  lemma {:induction false} ReleaseKeepsNumbers(q: seq<Message>)
    ensures Numbers(ReleaseLocks(q)) == Numbers(q)
  {
    if q == [] {
    } else {
      ReleaseKeepsNumbers(q[1..]);
    }
  }

  /** Deferring the first message of the batch adds it behind the deferred ones. */
  lemma {:induction false} DeferAddsNumber(q: seq<Message>, batch: seq<nat>)
    requires Sorted(q) && Phased(q, batch) && batch != []
    ensures DeferredNumbers(SetState(q, batch[0], Deferred)) == DeferredNumbers(q) + [batch[0]]
    ensures UndeferredFrom(SetState(q, batch[0], Deferred), batch[0] + 1)
  {
    if q[0].state == Deferred {
      FirstOfBatch(q[1..], batch);
      DeferAddsNumber(q[1..], batch);
      assert SetState(q, batch[0], Deferred) == [q[0]] + SetState(q[1..], batch[0], Deferred);
    } else {
      NoDeferredHere(q, batch);
      NoDeferredHere(q[1..], batch[1..]);
      DeferredNumbersAre(q);
      DeferredNumbersAre(q[1..]);
      assert SetState(q, batch[0], Deferred) == [q[0].(state := Deferred)] + q[1..];
    }
  }

  /** What is locked was active; it is locked in ascending order. */
  lemma {:induction false} LockedAscends(q: seq<Message>, count: nat)
    requires Sorted(q)
    ensures Ascending(LockFirst(q, count).1)
    ensures forall n :: n in LockFirst(q, count).1 ==> exists m :: m in q && m.state == Active && m.sequenceNumber == n
  {
    if q == [] || count == 0 {
    } else {
      var rest := LockFirst(q[1..], if q[0].state == Active then count - 1 else count).1;
      LockedAscends(q[1..], if q[0].state == Active then count - 1 else count);
      assert forall n :: n in rest ==> q[0].sequenceNumber < n;
      assert q[0] in q && forall m :: m in q[1..] ==> m in q;
      assert forall i :: 0 <= i < |rest| ==> rest[i] in rest;
    }
  }

  /** Locking keeps what is not deferred where it is. */
  lemma {:induction false} LockKeepsUndeferred(q: seq<Message>, count: nat, low: nat)
    requires UndeferredFrom(q, low)
    ensures UndeferredFrom(LockFirst(q, count).0, low)
    ensures DeferredNumbers(LockFirst(q, count).0) == DeferredNumbers(q)
  {
    if q == [] || count == 0 {
    } else {
      var rest := LockFirst(q[1..], if q[0].state == Active then count - 1 else count).0;
      assert q[0] in q && forall m :: m in q[1..] ==> m in q;
      LockKeepsUndeferred(q[1..], if q[0].state == Active then count - 1 else count, low);
      assert LockFirst(q, count).0[1..] == rest;
      assert forall m :: m in LockFirst(q, count).0 ==> m == LockFirst(q, count).0[0] || m in rest;
    }
  }

  /** Receiving a batch keeps order, range, numbers and the deferred messages. */
  lemma ReceiveStep(q: seq<Message>, count: nat, high: nat)
    requires Sorted(q) && Within(q, 0, Some(high)) && Phased(q, [])
    ensures var (q', batch) := LockFirst(q, count);
            Sorted(q') && Within(q', 0, Some(high)) && Phased(q', batch)
  {
    ReceiveKeepsPhases(q, count);
    LockKeepsNumbers(q, count);
    SameNumbers(q, LockFirst(q, count).0, high);
  }

  /** Deferring the first message of the batch keeps order, range and phases. */
  lemma DeferStep(q: seq<Message>, batch: seq<nat>, high: nat)
    requires Sorted(q) && Within(q, 0, Some(high)) && Phased(q, batch) && batch != []
    ensures var q' := SetState(q, batch[0], Deferred);
            Sorted(q') && Within(q', 0, Some(high)) && Phased(q', batch[1..])
  {
    DeferKeepsPhases(q, batch);
    SetStateKeepsNumbers(q, batch[0], Deferred);
    SameNumbers(q, SetState(q, batch[0], Deferred), high);
  }

  /**
   One message of the batch: it is deferred, others act, it is handed over, others act again. A
   message can be completed only after it was handed over.
   */
  method DeferAndHandOver(client: QueueClient, number: nat, handed: seq<nat>, change1: Change, change2: Change,
                          ghost batch: seq<nat>, ghost low: nat) returns (handed': seq<nat>, ghost completed: set<nat>)
    requires client.Valid() && low <= client.nextNumber && UndeferredFrom(client.queue, low)
    requires Phased(client.queue, batch) && batch != [] && batch[0] == number
    requires forall n :: n in handed ==> n < low
    modifies client
    ensures client.Valid() && number < client.nextNumber && UndeferredFrom(client.queue, number + 1)
    ensures low <= number && Phased(client.queue, batch[1..])
    ensures handed' == handed + [number] && forall n :: n in completed ==> n in handed'
    ensures DeferredNumbers(client.queue) == Removed(old(DeferredNumbers(client.queue)) + [number], completed)
  {
    ghost var before := DeferredNumbers(client.queue);
    FirstOfBatch(client.queue, batch);
    DeferStep(client.queue, batch, client.nextNumber);
    DeferAddsNumber(client.queue, batch);
    client.Defer(number);
    var done := HandlersAct(client, change1, handed, batch[1..]);
    handed' := handed + [number];
    var done' := HandlersAct(client, change2, handed', batch[1..]);
    completed := done + done';
    RemovedTwice(before + [number], done, done');
  }

  /** `ReceiveBatch` on a phased queue. */
  method LockBatch(client: QueueClient, ghost low: nat) returns (batch: seq<nat>)
    requires client.Valid() && Phased(client.queue, []) && UndeferredFrom(client.queue, low)
    modifies client
    ensures client.Valid() && Phased(client.queue, batch) && UndeferredFrom(client.queue, low)
    ensures client.nextNumber == old(client.nextNumber)
    ensures batch == LockFirst(old(client.queue), BATCH).1
    ensures Ascending(batch) && forall n :: n in batch ==> low <= n
    ensures DeferredNumbers(client.queue) == old(DeferredNumbers(client.queue))
  {
    LockedAscends(client.queue, BATCH);
    LockKeepsUndeferred(client.queue, BATCH, low);
    assert forall n :: n in LockFirst(client.queue, BATCH).1 ==> low <= n;
    ReceiveStep(client.queue, BATCH, client.nextNumber);
    batch := client.ReceiveBatch(BATCH);
  }

  /**
   One turn of the receive loop, while others act between any two of its calls: every message of
   the received batch is deferred and then handed over, in order.
   */
  method ReceiveAndDefer(client: QueueClient, changes: nat -> Change, handedBefore: seq<nat>, ghost low: nat)
    returns (handed: seq<nat>, ghost completed: set<nat>, ghost low': nat)
    requires client.Valid() && Phased(client.queue, [])
    requires low <= client.nextNumber && UndeferredFrom(client.queue, low) && forall n :: n in handedBefore ==> n < low
    modifies client
    ensures client.Valid() && Phased(client.queue, [])
    ensures low <= low' <= client.nextNumber && UndeferredFrom(client.queue, low')
    ensures handed == LockFirst(old(client.queue), BATCH).1
    ensures Ascending(handed) && (forall n :: n in handed ==> low <= n) && forall n :: n in handedBefore + handed ==> n < low'
    ensures forall n :: n in completed ==> n in handedBefore + handed
    ensures DeferredNumbers(client.queue) == Removed(old(DeferredNumbers(client.queue)) + handed, completed)
  {
    ghost var deferred := DeferredNumbers(client.queue);
    var batch := LockBatch(client, low);
    var all := handedBefore;
    handed, completed, low' := [], {}, low;
    NothingRemoved(deferred);
    assert deferred + [] == deferred && batch[0..] == batch;
    var i := 0;
    while i < |batch|
      invariant 0 <= i <= |batch| && handed == batch[..i] && all == handedBefore + handed
      invariant client.Valid() && Phased(client.queue, batch[i..])
      invariant low <= low' <= client.nextNumber && UndeferredFrom(client.queue, low')
      invariant forall n :: n in all ==> n < low'
      invariant forall n :: n in completed ==> n in all
      invariant DeferredNumbers(client.queue) == Removed(deferred + handed, completed)
    {
      assert batch[i..][0] == batch[i] && batch[i..][1..] == batch[i + 1..];
      ghost var done;
      all, done := DeferAndHandOver(client, batch[i], all, changes(2 * i), changes(2 * i + 1), batch[i..], low');
      CompletedMore(deferred + handed, completed, batch[i], done);
      assert deferred + handed + [batch[i]] == deferred + (handed + [batch[i]]);
      handed, low', completed := handed + [batch[i]], batch[i] + 1, completed + done;
      i := i + 1;
    }
    assert batch[i..] == [] && handed == batch;
  }

  lemma AscendingConcat(a: seq<nat>, b: seq<nat>, low: nat)
    requires Ascending(a) && Ascending(b)
    requires (forall n :: n in a ==> n < low) && (forall n :: n in b ==> low <= n)
    ensures Ascending(a + b)
  {
    assert forall i :: 0 <= i < |a| ==> a[i] in a;
    assert forall i :: 0 <= i < |b| ==> b[i] in b;
  }

  lemma CompletedMore(numbers: seq<nat>, completed: set<nat>, n: nat, done: set<nat>)
    requires n !in completed
    ensures Removed(Removed(numbers, completed) + [n], done) == Removed(numbers + [n], completed + done)
  {
    RemovedSnoc(numbers, completed, n);
    RemovedTwice(numbers + [n], completed, done);
  }

  // ----- both loops ----------------------------------------------------------

  /**
   Where a run of the consumer stands once recovery is over: everything handed over, in this run or
   before it, lies below `low` and everything undeferred does not, and the deferred messages are
   exactly those handed over in this run and not completed.
   */
  ghost predicate Served(client: QueueClient, earlier: seq<nat>, handed: seq<nat>, completed: set<nat>, low: nat)
    reads client
  {
    && client.Valid() && Phased(client.queue, [])
    && low <= client.nextNumber && UndeferredFrom(client.queue, low)
    && (forall n :: n in earlier + handed ==> n < low)
    && (forall n :: n in completed ==> n in earlier + handed)
    && Ascending(handed) && DeferredNumbers(client.queue) == Removed(handed, completed)
  }

  /** The recover loop on a phased queue, by numbers. */
  method RecoverNumbers(client: QueueClient, earlier: seq<nat>, changes: nat -> Change, cancelAt: Option<nat>,
                        ghost bound: nat)
    returns (handed: seq<nat>, cancelled: bool, ghost completed: set<nat>, ghost gone: set<nat>, ghost low: nat)
    requires client.Valid() && Phased(client.queue, [])
    requires bound <= client.nextNumber && UndeferredFrom(client.queue, bound) && forall n :: n in earlier ==> n < bound
    modifies client
    ensures client.Valid() && Phased(client.queue, [])
    ensures low <= client.nextNumber && UndeferredFrom(client.queue, low)
    ensures forall n :: n in earlier + handed ==> n < low
    ensures gone <= completed && forall n :: n in gone ==> n in earlier
    ensures Ascending(handed) && forall n :: n in completed ==> n in earlier + handed
    ensures !cancelled ==> Served(client, earlier, handed, completed, low)
    ensures var before := Removed(old(DeferredNumbers(client.queue)), gone);
            if cancelled then handed <= before else handed == before
  {
    ghost var q := client.queue;
    var delivered;
    ghost var reached;
    delivered, cancelled, completed, gone, reached := RecoverDeferred(client, earlier, changes, cancelAt);
    handed := Numbers(delivered);
    NumberMembers(delivered);
    RecoveredNumbers(q, delivered, gone, completed);
    low := if reached < bound then bound else reached;
  }

  /** One more turn of the receive loop. */
  method ServeTurn(client: QueueClient, earlier: seq<nat>, handed: seq<nat>, changes: nat -> Change,
                   ghost completed: set<nat>, ghost low: nat)
    returns (handed': seq<nat>, ghost completed': set<nat>, ghost low': nat)
    requires Served(client, earlier, handed, completed, low)
    modifies client
    ensures Served(client, earlier, handed', completed', low') && handed <= handed' && completed <= completed'
  {
    var more;
    ghost var done;
    more, done, low' := ReceiveAndDefer(client, changes, earlier + handed, low);
    TurnCompletes(handed, completed, more, done);
    assert forall n :: n in handed ==> n in earlier + handed;
    AscendingConcat(handed, more, low);
    handed', completed' := handed + more, completed + done;
    assert earlier + handed + more == earlier + handed';
  }

  /**
   `ReceiveQueueMessages`, the recover loop and then turns of the receive loop until it is
   cancelled. Handlers of an earlier run may still complete what they were handed, `earlier`, which
   lies below everything undeferred; the method leaves queue and bound as its next run needs them.
   All messages deferred before are handed over first, but for those in `gone` that earlier
   handlers completed before their turn; every message is handed over once and in order of its
   number; and after any turn the deferred messages are exactly those handed over and not completed.
   */
  method ReceiveQueueMessages(client: QueueClient, earlier: seq<nat>, recoverChanges: nat -> Change,
                              cancelAt: Option<nat>, changes: nat -> nat -> Change, turns: nat, ghost bound: nat)
    returns (handed: seq<nat>, cancelled: bool, ghost completed: set<nat>, ghost gone: set<nat>, ghost low: nat)
    requires client.Valid() && Phased(client.queue, [])
    requires bound <= client.nextNumber && UndeferredFrom(client.queue, bound) && forall n :: n in earlier ==> n < bound
    modifies client
    ensures client.Valid() && Phased(client.queue, [])
    ensures low <= client.nextNumber && UndeferredFrom(client.queue, low)
    ensures forall n :: n in earlier + handed ==> n < low
    ensures gone <= completed && forall n :: n in gone ==> n in earlier
    ensures Ascending(handed) && forall n :: n in completed ==> n in earlier + handed
    ensures !cancelled ==> Served(client, earlier, handed, completed, low)
    ensures var before := Removed(old(DeferredNumbers(client.queue)), gone);
            if cancelled then handed <= before else before <= handed
  {
    handed, cancelled, completed, gone, low := RecoverNumbers(client, earlier, recoverChanges, cancelAt, bound);
    if cancelled {
      return;
    }
    ghost var before := handed;
    var turn := 0;
    while turn < turns
      invariant Served(client, earlier, handed, completed, low) && before <= handed && gone <= completed
    {
      handed, completed, low := ServeTurn(client, earlier, handed, changes(turn), completed, low);
      turn := turn + 1;
    }
  }

  lemma {:induction false} NumbersWithout(run: seq<Message>, gone: set<nat>)
    requires forall m :: m in run ==> m.state == Deferred
    ensures Numbers(Without(run, gone)) == Removed(Numbers(run), gone)
  {
    if run == [] {
    } else {
      assert run[0] in run;
      NumbersWithout(run[1..], gone);
      assert Numbers(run)[1..] == Numbers(run[1..]);
      if run[0].sequenceNumber in gone {
        assert Without(run, gone) == Without(run[1..], gone);
      } else {
        assert Without(run, gone)[1..] == Without(run[1..], gone);
      }
    }
  }

  lemma {:induction false} RemovedAscends(numbers: seq<nat>, gone: set<nat>)
    requires Ascending(numbers)
    ensures Ascending(Removed(numbers, gone)) && forall n :: n in Removed(numbers, gone) ==> n in numbers
  {
    if numbers == [] {
    } else {
      RemovedAscends(numbers[1..], gone);
      assert forall n :: n in numbers[1..] ==> n in numbers && numbers[0] < n;
      if numbers[0] !in gone {
        AscendingConcat([numbers[0]], Removed(numbers[1..], gone), numbers[0] + 1);
      }
    }
  }

  /** In a phased queue the recovered numbers are the deferred ones without those that went first. */
  lemma RecoveredNumbers(q: seq<Message>, delivered: seq<Message>, gone: set<nat>, completed: set<nat>)
    requires Sorted(q) && Phased(q, []) && gone <= completed
    requires delivered <= Without(DeferredRun(q), gone)
    ensures Numbers(delivered) <= Removed(DeferredNumbers(q), gone) && Ascending(Numbers(delivered))
    ensures delivered == Without(DeferredRun(q), gone) ==>
              Numbers(delivered) == Removed(DeferredNumbers(q), gone)
              && Removed(DeferredNumbers(q), completed) == Removed(Numbers(delivered), completed)
  {
    PhasedMeansRecoverable(q, []);
    DeferredNumbersAre(q);
    DeferredAscend(q, 0);
    RunIsDeferred(q);
    NumbersWithout(DeferredRun(q), gone);
    RemovedAscends(DeferredNumbers(q), gone);
    PrefixNumbers(delivered, Without(DeferredRun(q), gone));
    RemovedTwice(DeferredNumbers(q), gone, completed);
    assert gone + completed == completed;
  }

  lemma {:induction false} RemovedConcat(numbers: seq<nat>, more: seq<nat>, completed: set<nat>)
    requires forall n :: n in more ==> n !in completed
    ensures Removed(numbers + more, completed) == Removed(numbers, completed) + more
  {
    if more == [] {
      assert numbers + more == numbers;
    } else {
      var front, last := more[..|more| - 1], more[|more| - 1];
      RemovedConcat(numbers, front, completed);
      assert numbers + more == (numbers + front) + [last] && more == front + [last];
      RemovedSnoc(numbers + front, completed, last);
    }
  }

  lemma TurnCompletes(handed: seq<nat>, completed: set<nat>, more: seq<nat>, done: set<nat>)
    requires forall n :: n in more ==> n !in completed
    ensures Removed(Removed(handed, completed) + more, done) == Removed(handed + more, completed + done)
  {
    RemovedConcat(handed, more, completed);
    RemovedTwice(handed + more, completed, done);
  }

  lemma {:induction false} DeferredAscend(q: seq<Message>, low: nat)
    requires Sorted(q) && Within(q, low, None)
    ensures Ascending(DeferredNumbers(q)) && forall n :: n in DeferredNumbers(q) ==> low <= n
  {
    if q == [] {
    } else {
      var first := q[0].sequenceNumber;
      assert q[0] in q;
      DeferredAscend(q[1..], first + 1);
      AscendingConcat([first], DeferredNumbers(q[1..]), first + 1);
    }
  }

  lemma PrefixNumbers(q: seq<Message>, r: seq<Message>)
    requires q <= r
    ensures Numbers(q) <= Numbers(r)
  {
    NumbersConcat(q, r[|q|..]);
    assert r == q + r[|q|..];
  }
}
