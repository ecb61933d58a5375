/**
 The message consumer with one sliding door per topic partition, the Kafka callbacks around
 it, and one partition's log over any run of polls, completions, failures and restarts.
 */
module KafkaConsumer {
  import opened Wrappers
  import opened SlidingDoors

  // ----- door keys -----------------------------------------------------------

  const DIGITS := "0123456789"

  function Decimal(n: nat): (s: string)
    ensures s != [] && forall c :: c in s ==> c in DIGITS
  {
    if n < 10 then [DIGITS[n]] else Decimal(n / 10) + [DIGITS[n % 10]]
  }

  lemma {:induction false} DecimalInjective(m: nat, n: nat)
    requires Decimal(m) == Decimal(n)
    ensures m == n
  {
    var s := Decimal(m);
    DigitsDiffer();
    assert m < 10 <==> |s| == 1;
    assert n < 10 <==> |s| == 1;
    if |s| > 1 {
      assert s[..|s| - 1] == Decimal(m / 10) && s[..|s| - 1] == Decimal(n / 10);
      assert s[|s| - 1] == DIGITS[m % 10] == DIGITS[n % 10];
      DecimalInjective(m / 10, n / 10);
    } else {
      assert s[0] == DIGITS[m] == DIGITS[n];
    }
  }

  lemma DigitsDiffer()
    ensures forall i, j :: 0 <= i < j < 10 ==> DIGITS[i] != DIGITS[j]
    ensures '.' !in DIGITS
  {
  }

  /** The key of a partition's door. */
  function DoorKey(topic: string, partition: nat): string {
    topic + "." + Decimal(partition)
  }

  /** Different partitions never share a door, whatever dots the topic names contain. */
  lemma DoorKeyInjective(topic1: string, partition1: nat, topic2: string, partition2: nat)
    requires DoorKey(topic1, partition1) == DoorKey(topic2, partition2)
    ensures topic1 == topic2 && partition1 == partition2
  {
    var key := DoorKey(topic1, partition1);
    var d1, d2 := Decimal(partition1), Decimal(partition2);
    DigitsDiffer();
    assert key[|topic1|] == '.' && key[|topic2|] == '.';
    forall k | |topic1| < k < |key|
      ensures key[k] != '.'
    {
      assert key[k] == d1[k - |topic1| - 1];
    }
    forall k | |topic2| < k < |key|
      ensures key[k] != '.'
    {
      assert key[k] == d2[k - |topic2| - 1];
    }
    assert key[|topic1| + 1..] == d1 && key[|topic2| + 1..] == d2;
    assert key[..|topic1|] == topic1 && key[..|topic2|] == topic2;
    DecimalInjective(partition1, partition2);
  }

  // ----- the calls on one door -----------------------------------------------

  /** How the message callback ends. */
  datatype CallbackEnd = Returned | Cancelled | Failed

  /** The position committed for an offset is the next one to read. */
  function Position(effect: Effect): Option<int> {
    if effect.CommitAt? then Some(effect.offset + 1) else None
  }

  /** `FinishConsumingMessage` on the door of the message; without a door it throws. */
  function Finish(perMessage: bool, door: Option<Door>, offset: int): (Option<Door>, Option<int>) {
    match door
    case None => (None, None)
    case Some(d) =>
      if perMessage then (door, Some(offset + 1)) else (Some(Remove(d, offset).0), Position(Remove(d, offset).1))
  }

  /** `AddMessageOffset`: the door is made when it is missing; a door that commits each message ignores the offset. */
  function Added(perMessage: bool, door: Option<Door>, offset: int): Option<Door> {
    var d := if door.Some? then door.value else FRESH;
    Some(if perMessage then d else Add(d, offset))
  }

  /** `_consumer_OnMessage`: a failed message with a value is finished on the spot. */
  function OnMessage(perMessage: bool, door: Option<Door>, offset: int, hasValue: bool,
                     end: CallbackEnd): (Option<Door>, Option<int>) {
    var added := Added(perMessage, door, offset);
    if end.Failed? && hasValue then Finish(perMessage, added, offset) else (added, None)
  }

  /**
   The calls on a consumer that commits every message: a new door stays as it is made, and each
   message that is finished, or fails with a value, moves the position behind itself at once.
   */
  lemma EachMessageIsCommitted(door: Option<Door>, offset: int, hasValue: bool, end: CallbackEnd)
    ensures var (door', position) := OnMessage(true, door, offset, hasValue, end);
            && door' == Some(if door.Some? then door.value else Door({}, {}, -1, -1, -1))
            && position == if end.Failed? && hasValue then Some(offset + 1) else None
    ensures door.Some? ==> Finish(true, door, offset) == (door, Some(offset + 1))
    ensures Finish(true, None, offset) == (None, None)
  {
  }

  function Sum(counts: seq<nat>): nat {
    if counts == [] then 0 else counts[0] + Sum(counts[1..])
  }

  lemma {:induction false} SumSnoc(counts: seq<nat>, n: nat)
    ensures Sum(counts + [n]) == Sum(counts) + n
  {
    if counts == [] {
      assert [] + [n] == [n] && [n][1..] == [];
    } else {
      assert (counts + [n])[1..] == counts[1..] + [n];
      SumSnoc(counts[1..], n);
    }
  }

  class MessageConsumer {
    /** The configured commit mode, which every door is made with. */
    const commitPerMessage: bool
    var slidingDoors: map<string, SlidingDoor>

    ghost predicate Valid()
      reads this, slidingDoors.Values
    {
      && (forall k :: k in slidingDoors ==> slidingDoors[k].Valid() && slidingDoors[k].commitPerMessage == commitPerMessage)
      && (forall j, k :: j in slidingDoors && k in slidingDoors && j != k ==> slidingDoors[j] != slidingDoors[k])
    }

    ghost function DoorOf(key: string): Option<Door>
      reads this, slidingDoors.Values
    {
      if key in slidingDoors then Some(slidingDoors[key].State()) else None
    }

    constructor (commitPerMessage: bool)
      ensures Valid() && slidingDoors == map[] && this.commitPerMessage == commitPerMessage
    {
      this.commitPerMessage, slidingDoors := commitPerMessage, map[];
    }

    method AddMessageOffset(key: string, offset: int)
      requires Valid()
      modifies this, slidingDoors.Values
      ensures Valid() && fresh(slidingDoors.Values - old(slidingDoors.Values))
      ensures DoorOf(key) == Added(commitPerMessage, old(DoorOf(key)), offset)
      ensures forall k :: k != key ==> DoorOf(k) == old(DoorOf(k))
    {
      if key !in slidingDoors {
        var door := new SlidingDoor(commitPerMessage);
        slidingDoors := slidingDoors[key := door];
      }
      slidingDoors[key].AddOffset(offset);
    }

    /** `position` is what reaches the broker through the commit callback. */
    method FinishConsumingMessage(key: string, m: MessageOffset) returns (position: Option<int>, threw: bool)
      requires Valid()
      modifies slidingDoors.Values
      ensures Valid() && slidingDoors == old(slidingDoors)
      ensures (DoorOf(key), position) == Finish(commitPerMessage, old(DoorOf(key)), m.offset)
      ensures old(DoorOf(key)).None? ==> threw
      ensures forall k :: k != key ==> DoorOf(k) == old(DoorOf(k))
    {
      if key !in slidingDoors {
        return None, true;
      }
      var committed;
      committed, threw := slidingDoors[key].RemoveOffset(m);
      position := if committed.Some? then Some(committed.value.offset + 1) else None;
    }

    method ConsumerOnMessage(key: string, m: MessageOffset, hasValue: bool, end: CallbackEnd)
      returns (position: Option<int>)
      requires Valid()
      modifies this, slidingDoors.Values
      ensures Valid() && fresh(slidingDoors.Values - old(slidingDoors.Values))
      ensures (DoorOf(key), position) == OnMessage(commitPerMessage, old(DoorOf(key)), m.offset, hasValue, end)
      ensures forall k :: k != key ==> DoorOf(k) == old(DoorOf(k))
    {
      AddMessageOffset(key, m.offset);
      position := None;
      if end.Failed? && hasValue {
        var threw;
        position, threw := FinishConsumingMessage(key, m);
      }
    }

    /** How many messages are unfinished in the doors with these keys. */
    ghost function CountsOf(keys: seq<string>): seq<nat>
      requires forall k :: k in keys ==> k in slidingDoors
      reads this, slidingDoors.Values
    {
      var doors := slidingDoors;
      seq(|keys|, i requires 0 <= i < |keys| && keys[i] in doors reads doors.Values => doors[keys[i]].MessageCount())
    }

    /** The sum that the full-load check compares with the threshold: every door counts once. */
    method PendingMessageCount() returns (count: nat, ghost keys: seq<string>)
      requires Valid()
      ensures (forall k :: k in keys <==> k in slidingDoors) && forall i, j :: 0 <= i < j < |keys| ==> keys[i] != keys[j]
      ensures count == Sum(CountsOf(keys))
    {
      count, keys := 0, [];
      var rest := slidingDoors.Keys;
      while rest != {}
        invariant rest <= slidingDoors.Keys && forall k :: k in keys <==> k in slidingDoors && k !in rest
        invariant forall i, j :: 0 <= i < j < |keys| ==> keys[i] != keys[j]
        invariant count == Sum(CountsOf(keys))
        decreases |rest|
      {
        var key :| key in rest;
        SumSnoc(CountsOf(keys), slidingDoors[key].MessageCount());
        assert CountsOf(keys + [key]) == CountsOf(keys) + [slidingDoors[key].MessageCount()];
        count := count + slidingDoors[key].MessageCount();
        keys := keys + [key];
        rest := rest - {key};
      }
    }

    method Stop()
      modifies this
      ensures Valid() && slidingDoors == map[]
    {
      slidingDoors := map[];
    }
  }

  // ----- one partition -------------------------------------------------------

  /**
   A partition's log and its consumer. `committed` is the broker's position for the group,
   `position` the next offset to fetch and `started` where this incarnation began. The door
   carries its history since it was created. `handed`, `finished` and `failed` record, over all
   incarnations, the messages given to handlers, reported finished, and failed on the spot.
   */
  datatype Partition = Partition(
    log: set<int>,
    nulls: set<int>,
    committed: int,
    position: int,
    started: int,
    door: Option<History>,
    handed: set<int>,
    finished: set<int>,
    failed: set<int>)

  const INITIAL := Partition({}, {}, 0, 0, 0, None, {}, {}, {})

  /** `commitOk` says whether a commit made by the step reaches the broker. */
  datatype Step =
    | Produce(offset: int, isNull: bool)
    | Poll(end: CallbackEnd, commitOk: bool)
    | Complete(offset: int, commitOk: bool)
    | Restart

  function Unread(w: Partition): set<int> {
    set x | x in w.log && x >= w.position
  }

  function HistoryOf(w: Partition): History {
    if w.door.Some? then w.door.value else START
  }

  /** Polls wait while more than `threshold` messages are unfinished. */
  ghost predicate Enabled(w: Partition, step: Step, threshold: nat) {
    match step
    case Produce(offset, _) => offset >= 0 && forall x :: x in w.log ==> x < offset
    case Poll(_, _) => Unread(w) != {} && |HistoryOf(w).door.offsets| <= threshold
    case Complete(offset, _) => offset in w.handed
    case Restart => true
  }

  function Commit(w: Partition, position: Option<int>, commitOk: bool): Partition {
    if position.Some? && commitOk then w.(committed := position.value) else w
  }

  /** A removal on the door, with its commit passed on. */
  function FinishOffset(w: Partition, offset: int, commitOk: bool): Partition {
    if w.door.None? then w
    else Commit(w.(door := Some(Do(w.door.value, RemoveOp(offset)))),
                Position(Remove(w.door.value.door, offset).1), commitOk)
  }

  /** The partition after a message was fetched and its offset added. */
  function Fetched(w: Partition): Partition
    requires Unread(w) != {}
  {
    var offset := First(Unread(w));
    w.(position := offset + 1, door := Some(Do(HistoryOf(w), AddOp(offset))))
  }

  function Next(w: Partition, step: Step): Partition
    requires step.Poll? ==> Unread(w) != {}
  {
    match step
    case Produce(offset, isNull) =>
      w.(log := w.log + {offset}, nulls := if isNull then w.nulls + {offset} else w.nulls)
    case Poll(end, commitOk) =>
      var offset := First(Unread(w));
      var added := Fetched(w);
      (match end
       case Returned => added.(handed := w.handed + {offset})
       case Cancelled => added
       case Failed =>
         if offset in w.nulls then added
         else FinishOffset(added.(failed := w.failed + {offset}), offset, commitOk))
    case Complete(offset, commitOk) =>
      FinishOffset(w.(finished := w.finished + {offset}), offset, commitOk)
    case Restart =>
      w.(position := w.committed, started := w.committed, door := None)
  }

  /** The step on the door is the consumer's own call. */
  lemma StepsAreTheConsumersCalls(w: Partition, step: Step)
    requires step.Poll? ==> Unread(w) != {}
    ensures step.Poll? ==>
              var offset := First(Unread(w));
              var door := if w.door.Some? then Some(w.door.value.door) else None;
              var (door', position) := OnMessage(false, door, offset, offset !in w.nulls, step.end);
              && Next(w, step).door.Some? && door' == Some(Next(w, step).door.value.door)
              && Next(w, step).committed == (if position.Some? && step.commitOk then position.value else w.committed)
    ensures step.Complete? && w.door.Some? ==>
              var (door', position) := Finish(false, Some(w.door.value.door), step.offset);
              && door' == Some(Next(w, step).door.value.door)
              && Next(w, step).committed == (if position.Some? && step.commitOk then position.value else w.committed)
  {
  }

  /** A message that needs no further delivery. */
  ghost predicate Settled(w: Partition, x: int) {
    x in w.finished || x in w.failed
  }

  ghost predicate LogInv(w: Partition) {
    && (forall x :: x in w.log ==> x >= 0)
    && 0 <= w.started <= w.committed <= w.position
    && (w.committed > 0 ==> w.committed - 1 in w.log)
    && (w.position > 0 ==> w.position - 1 in w.log)
    && (forall x :: x in w.log && x < w.committed ==> Settled(w, x))
  }

  /** The door has seen exactly the messages polled since the start. */
  ghost predicate PolledInv(w: Partition, h: History) {
    && DoorInv(h)
    && (forall x :: x in h.added <==> x in w.log && w.started <= x < w.position)
    && (forall x :: x in h.added && x !in h.door.offsets ==> Settled(w, x))
    && (w.committed == w.started || w.committed <= LastCommit(h.commits) + 1)
  }

  ghost predicate Inv(w: Partition) {
    LogInv(w) && PolledInv(w, HistoryOf(w))
  }

  lemma ProduceKeepsInv(w: Partition, offset: int, isNull: bool)
    requires Inv(w) && offset >= 0 && (forall x :: x in w.log ==> x < offset)
    ensures Inv(Next(w, Produce(offset, isNull)))
  {
  }

  /** Fetching a message and adding its offset to the door. */
  lemma FetchKeepsInv(w: Partition)
    requires Inv(w) && Unread(w) != {}
    ensures Inv(Fetched(w))
  {
    var offset := First(Unread(w));
    var h := HistoryOf(w);
    var h' := Do(h, AddOp(offset));
    AddKeepsInv(h, offset);
    forall x | x in w.log && w.started <= x < offset + 1
      ensures x in h'.added
    {
      if x != offset {
        assert x !in Unread(w);
      }
    }
    assert PolledInv(w.(position := offset + 1), h');
  }

  /** What a removal of a settled offset does to the door and its commits. */
  lemma FinishDoor(w: Partition, h: History, offset: int)
    requires DoorInv(h) && Settled(w, offset)
    requires forall x :: x in h.added && x !in h.door.offsets ==> Settled(w, x)
    ensures var h' := Do(h, RemoveOp(offset));
            var position := Position(Remove(h.door, offset).1);
            && DoorInv(h') && h'.added == h.added
            && (forall x :: x in h.added && x !in h'.door.offsets ==> Settled(w, x))
            && (if position.None? then h'.commits == h.commits
                else h'.commits != [] && position.value == LastCommit(h'.commits) + 1
                     && LastCommit(h.commits) < LastCommit(h'.commits))
  {
    RemoveKeepsInv(h, offset);
    RemoveTakesOnly(h.door, offset);
  }

  lemma FinishedDoorKeepsInv(w: Partition, h: History, offset: int)
    requires Inv(w) && w.door == Some(h) && Settled(w, offset)
    ensures Inv(w.(door := Some(Do(h, RemoveOp(offset)))))
  {
    FinishDoor(w, h, offset);
  }

  /** A commit of the door's last commit passes only settled messages, and only forward. */
  lemma CommitKeepsInv(w: Partition, h: History, position: int)
    requires Inv(w) && w.door == Some(h) && h.commits != [] && position == LastCommit(h.commits) + 1
    ensures Inv(w.(committed := position)) && position >= w.committed
  {
    CommitIsSettled(w, h, position);
    assert forall x :: Settled(w.(committed := position), x) <==> Settled(w, x);
  }

  /** Taking a settled offset out of the door. */
  lemma FinishKeepsInv(w: Partition, offset: int, commitOk: bool)
    requires Inv(w) && Settled(w, offset)
    ensures Inv(FinishOffset(w, offset, commitOk)) && FinishOffset(w, offset, commitOk).committed >= w.committed
  {
    if w.door.Some? {
      var h := w.door.value;
      FinishDoor(w, h, offset);
      FinishedDoorKeepsInv(w, h, offset);
      var h' := Do(h, RemoveOp(offset));
      var position := Position(Remove(h.door, offset).1);
      if position.Some? {
        CommitKeepsInv(w.(door := Some(h')), h', position.value);
      }
    }
  }

  lemma RemoveTakesOnly(d: Door, offset: int)
    ensures Remove(d, offset).0.offsets == d.offsets - {offset}
  {
    if offset !in d.offsets {
      assert d.offsets - {offset} == d.offsets;
    }
  }

  lemma CommitIsSettled(w: Partition, h': History, position: int)
    requires LogInv(w) && DoorInv(h')
    requires forall x :: x in h'.added <==> x in w.log && w.started <= x < w.position
    requires forall x :: x in h'.added && x !in h'.door.offsets ==> Settled(w, x)
    requires h'.commits != [] && position == LastCommit(h'.commits) + 1
    ensures forall x :: x in w.log && x < position ==> Settled(w, x)
    ensures 0 < position <= w.position && position - 1 in w.log && w.started <= position
  {
    assert BelowUnfinished(h'.door, h'.door.lastCommitted);
    forall x | x in w.log && x < position
      ensures Settled(w, x)
    {
      if x >= w.started {
        assert x in h'.added;
      }
    }
  }

  lemma PollKeepsInv(w: Partition, end: CallbackEnd, commitOk: bool)
    requires Inv(w) && Unread(w) != {}
    ensures Inv(Next(w, Poll(end, commitOk))) && Next(w, Poll(end, commitOk)).committed >= w.committed
  {
    FetchKeepsInv(w);
    var offset := First(Unread(w));
    if end.Failed? && offset !in w.nulls {
      PollFailureKeepsInv(w, Fetched(w), offset, commitOk);
      assert Next(w, Poll(end, commitOk)) == FinishOffset(Fetched(w).(failed := w.failed + {offset}), offset, commitOk);
    } else if end.Returned? {
      MarksKeepInv(Fetched(w), w.handed + {offset}, w.finished, w.failed);
    }
  }

  lemma PollFailureKeepsInv(w: Partition, fetched: Partition, offset: int, commitOk: bool)
    requires Inv(fetched) && fetched.failed == w.failed
    ensures var after := FinishOffset(fetched.(failed := w.failed + {offset}), offset, commitOk);
            Inv(after) && after.committed >= fetched.committed
  {
    MarksKeepInv(fetched, fetched.handed, fetched.finished, w.failed + {offset});
    FinishKeepsInv(fetched.(failed := w.failed + {offset}), offset, commitOk);
  }

  /** Settling more messages keeps the invariant. */
  lemma MarksKeepInv(w: Partition, handed: set<int>, finished: set<int>, failed: set<int>)
    requires Inv(w) && w.finished <= finished && w.failed <= failed
    ensures Inv(w.(handed := handed, finished := finished, failed := failed))
  {
    assert forall x :: Settled(w, x) ==> Settled(w.(handed := handed, finished := finished, failed := failed), x);
  }

  /** Every step keeps the invariant and never moves the committed position backwards. */
  lemma StepKeepsInv(w: Partition, step: Step, threshold: nat)
    requires Inv(w) && Enabled(w, step, threshold)
    ensures Inv(Next(w, step)) && Next(w, step).committed >= w.committed
  {
    match step
    case Produce(offset, isNull) => ProduceKeepsInv(w, offset, isNull);
    case Poll(end, commitOk) => PollKeepsInv(w, end, commitOk);
    case Complete(offset, commitOk) =>
      MarksKeepInv(w, w.handed, w.finished + {offset}, w.failed);
      FinishKeepsInv(w.(finished := w.finished + {offset}), offset, commitOk);
    case Restart =>
  }

  // ----- runs ----------------------------------------------------------------

  ghost predicate Legal(w: Partition, steps: seq<Step>, threshold: nat)
    decreases |steps|
  {
    steps == [] || (Enabled(w, steps[0], threshold) && Legal(Next(w, steps[0]), steps[1..], threshold))
  }

  ghost function RunSteps(w: Partition, steps: seq<Step>, threshold: nat): Partition
    requires Legal(w, steps, threshold)
    decreases |steps|
  {
    if steps == [] then w else RunSteps(Next(w, steps[0]), steps[1..], threshold)
  }

  lemma {:induction false} RunKeepsInv(w: Partition, steps: seq<Step>, threshold: nat)
    requires Inv(w) && Legal(w, steps, threshold)
    ensures Inv(RunSteps(w, steps, threshold)) && RunSteps(w, steps, threshold).committed >= w.committed
    decreases |steps|
  {
    if steps == [] {
    } else {
      StepKeepsInv(w, steps[0], threshold);
      RunKeepsInv(Next(w, steps[0]), steps[1..], threshold);
    }
  }

  /**
   No message is lost over any run of polls, out-of-order completions, failures, lost commits,
   cancellations, crashes and restarts: everything below the committed position was finished or
   failed on the spot, and the position never moves backwards, restarts included.
   */
  lemma NoMessageIsLost(before: seq<Step>, after: seq<Step>, threshold: nat)
    requires Legal(INITIAL, before, threshold)
    requires Legal(RunSteps(INITIAL, before, threshold), after, threshold)
    ensures var w := RunSteps(INITIAL, before, threshold);
            var w' := RunSteps(w, after, threshold);
            && (forall x :: x in w'.log && x < w'.committed ==> x in w'.finished || x in w'.failed)
            && w.committed <= w'.committed
  {
    RunKeepsInv(INITIAL, before, threshold);
    RunKeepsInv(RunSteps(INITIAL, before, threshold), after, threshold);
  }

  /**
   At-least-once delivery. After a restart every message that is neither finished nor failed is
   waiting to be polled; and once nothing is waiting, each such message is unfinished in the door.
   */
  lemma UnsettledMessagesAreDeliveredAgain(w: Partition)
    requires Inv(w)
    ensures forall x :: x in w.log && !Settled(w, x) ==> x in Unread(Next(w, Restart))
    ensures Unread(w) == {} ==> forall x :: x in w.log && !Settled(w, x) ==> x in HistoryOf(w).door.offsets
  {
    if Unread(w) == {} {
      forall x | x in w.log && !Settled(w, x)
        ensures x in HistoryOf(w).door.offsets
      {
        assert x !in Unread(w);
      }
    }
  }

  /**
   When everything has been polled and nothing is unfinished, the door's last commit is the last
   message, so if that commit reached the broker nothing will be delivered again.
   */
  lemma CaughtUp(w: Partition)
    requires Inv(w) && Unread(w) == {} && HistoryOf(w).door.offsets == {} && HistoryOf(w).added != {}
    ensures LastCommit(HistoryOf(w).commits) + 1 == w.position
    ensures w.committed == LastCommit(HistoryOf(w).commits) + 1 ==> Unread(Next(w, Restart)) == {}
  {
    var h := HistoryOf(w);
    assert BelowUnfinished(h.door, h.door.last);
    assert w.position - 1 in h.added by {
      assert h.door.last in w.log;
    }
    assert forall x :: x in w.log ==> x in Unread(w) || x < w.position;
  }

  lemma {:induction false} SubsetSize(a: set<int>, b: set<int>)
    requires a <= b
    ensures |a| <= |b|
  {
    if a == {} {
    } else {
      var x := First(a);
      SubsetSize(a - {x}, b - {x});
    }
  }

  // ----- all partitions of a consumer ----------------------------------------

  /** A step of one partition, or the consumer stopping and starting again. */
  datatype ConsumerStep = On(partition: nat, step: Step) | Restarted

  /** How many messages are unfinished in the door of each partition. */
  function Counts(c: seq<Partition>): seq<nat> {
    seq(|c|, i requires 0 <= i < |c| => |HistoryOf(c[i]).door.offsets|)
  }

  /** The unfinished messages in all doors. */
  function Load(c: seq<Partition>): nat {
    Sum(Counts(c))
  }

  /** The consumer polls only while the sum over its doors is not above the threshold. */
  ghost predicate ConsumerEnabled(c: seq<Partition>, step: ConsumerStep, threshold: nat) {
    match step
    case On(k, s) => k < |c| && !s.Restart? && Enabled(c[k], s, threshold) && (s.Poll? ==> Load(c) <= threshold)
    case Restarted => true
  }

  function ConsumerNext(c: seq<Partition>, step: ConsumerStep): seq<Partition>
    requires step.On? ==> step.partition < |c| && (step.step.Poll? ==> Unread(c[step.partition]) != {})
  {
    match step
    case On(k, s) => c[k := Next(c[k], s)]
    case Restarted => seq(|c|, i requires 0 <= i < |c| => Next(c[i], Restart))
  }

  ghost predicate ConsumerLegal(c: seq<Partition>, steps: seq<ConsumerStep>, threshold: nat)
    decreases |steps|
  {
    steps == [] || (ConsumerEnabled(c, steps[0], threshold) && ConsumerLegal(ConsumerNext(c, steps[0]), steps[1..], threshold))
  }

  ghost function RunConsumer(c: seq<Partition>, steps: seq<ConsumerStep>, threshold: nat): seq<Partition>
    requires ConsumerLegal(c, steps, threshold)
    decreases |steps|
  {
    if steps == [] then c else RunConsumer(ConsumerNext(c, steps[0]), steps[1..], threshold)
  }

  /** Every partition keeps its own invariant, and its position only moves forward. */
  ghost predicate Advances(c: seq<Partition>, c': seq<Partition>) {
    |c'| == |c| && forall k :: 0 <= k < |c| ==> Inv(c'[k]) && c[k].committed <= c'[k].committed
  }

  lemma ConsumerStepAdvances(c: seq<Partition>, step: ConsumerStep, threshold: nat)
    requires (forall k :: 0 <= k < |c| ==> Inv(c[k])) && ConsumerEnabled(c, step, threshold)
    ensures Advances(c, ConsumerNext(c, step))
  {
    match step
    case On(k, s) => StepKeepsInv(c[k], s, threshold);
    case Restarted =>
      forall k | 0 <= k < |c|
        ensures Inv(Next(c[k], Restart))
      {
        StepKeepsInv(c[k], Restart, threshold);
      }
  }

  /** No partition of a consumer loses a message, whatever its other partitions do. */
  lemma {:induction false} NoPartitionLosesMessages(c: seq<Partition>, steps: seq<ConsumerStep>, threshold: nat)
    requires (forall k :: 0 <= k < |c| ==> Inv(c[k])) && ConsumerLegal(c, steps, threshold)
    ensures Advances(c, RunConsumer(c, steps, threshold))
    ensures var c' := RunConsumer(c, steps, threshold);
            forall k :: 0 <= k < |c'| ==> forall x :: x in c'[k].log && x < c'[k].committed ==> x in c'[k].finished || x in c'[k].failed
    decreases |steps|
  {
    if steps == [] {
    } else {
      ConsumerStepAdvances(c, steps[0], threshold);
      NoPartitionLosesMessages(ConsumerNext(c, steps[0]), steps[1..], threshold);
    }
    forall k | 0 <= k < |c|
      ensures var w := RunConsumer(c, steps, threshold)[k];
              forall x :: x in w.log && x < w.committed ==> x in w.finished || x in w.failed
    {
      assert LogInv(RunConsumer(c, steps, threshold)[k]);
    }
  }

  lemma {:induction false} SumOfOne(counts: seq<nat>, k: nat, n: nat)
    requires k < |counts|
    ensures Sum(counts[k := n]) == Sum(counts) - counts[k] + n
  {
    if k == 0 {
      assert counts[k := n][1..] == counts[1..];
    } else {
      assert counts[k := n][1..] == counts[1..][k - 1 := n];
      SumOfOne(counts[1..], k - 1, n);
    }
  }

  lemma LoadOfOne(c: seq<Partition>, k: nat, w: Partition)
    requires k < |c|
    ensures Load(c[k := w]) == Load(c) - |HistoryOf(c[k]).door.offsets| + |HistoryOf(w).door.offsets|
  {
    assert Counts(c[k := w]) == Counts(c)[k := |HistoryOf(w).door.offsets|];
    SumOfOne(Counts(c), k, |HistoryOf(w).door.offsets|);
  }

  lemma {:induction false} SumOfNone(counts: seq<nat>)
    requires forall k :: 0 <= k < |counts| ==> counts[k] == 0
    ensures Sum(counts) == 0
  {
    if counts == [] {
    } else {
      SumOfNone(counts[1..]);
    }
  }

  lemma NoLoadAfterRestart(c: seq<Partition>)
    requires forall k :: 0 <= k < |c| ==> c[k].door.None?
    ensures Load(c) == 0
  {
    SumOfNone(Counts(c));
  }

  /** A poll adds one unfinished message at most, and no other step adds any. */
  lemma StepLoad(w: Partition, step: Step, threshold: nat)
    requires Enabled(w, step, threshold)
    ensures |HistoryOf(Next(w, step)).door.offsets| <= |HistoryOf(w).door.offsets| + (if step.Poll? then 1 else 0)
  {
    var d, next := HistoryOf(w).door, HistoryOf(Next(w, step)).door;
    if step.Poll? {
      var offset := First(Unread(w));
      RemoveTakesOnly(Add(d, offset), offset);
      assert next.offsets <= d.offsets + {offset};
      SubsetSize(next.offsets, d.offsets + {offset});
    } else if step.Complete? {
      RemoveTakesOnly(d, step.offset);
      SubsetSize(next.offsets, d.offsets);
    }
  }

  /** The load of the partitions is the sum the consumer computes, when their doors are the consumer's. */
  lemma LoadIsTheSum(consumer: MessageConsumer, keys: seq<string>, c: seq<Partition>)
    requires |keys| == |c| && (forall k :: k in keys ==> k in consumer.slidingDoors)
    requires forall i :: 0 <= i < |keys| ==> consumer.slidingDoors[keys[i]].State() == HistoryOf(c[i]).door
    ensures Sum(consumer.CountsOf(keys)) == Load(c)
  {
    forall i | 0 <= i < |keys|
      ensures consumer.CountsOf(keys)[i] == Counts(c)[i]
    {
      assert consumer.slidingDoors[keys[i]].State().offsets == consumer.slidingDoors[keys[i]].offsets;
    }
    assert consumer.CountsOf(keys) == Counts(c);
  }

  /** The load check bounds the unfinished messages in all doors together: one more than the threshold at most. */
  lemma {:induction false} LoadIsBounded(c: seq<Partition>, steps: seq<ConsumerStep>, threshold: nat)
    requires ConsumerLegal(c, steps, threshold) && Load(c) <= threshold + 1
    ensures Load(RunConsumer(c, steps, threshold)) <= threshold + 1
    decreases |steps|
  {
    if steps == [] {
    } else {
      match steps[0] {
        case On(k, s) =>
          StepLoad(c[k], s, threshold);
          LoadOfOne(c, k, Next(c[k], s));
        case Restarted =>
          NoLoadAfterRestart(ConsumerNext(c, Restarted));
      }
      LoadIsBounded(ConsumerNext(c, steps[0]), steps[1..], threshold);
    }
  }

  // ----- finishing the last unfinished message --------------------------------

  /** When the only unfinished message is completed, the committed position reaches all that was polled. */
  lemma CompletingTheLastCommitsAll(w: Partition, x: int)
    requires Inv(w) && HistoryOf(w).door.offsets == {x}
    ensures var after := Next(w, Complete(x, true));
            HistoryOf(after).door.offsets == {} && after.committed == after.position == w.position
  {
    var h := HistoryOf(w);
    assert Consumed({}, h.door.last) == h.door.last;
    LastAddedIsLastPolled(w);
  }

  lemma LastAddedIsLastPolled(w: Partition)
    requires Inv(w) && HistoryOf(w).added != {}
    ensures HistoryOf(w).door.last == w.position - 1 && w.position - 1 in HistoryOf(w).added
  {
    assert HistoryOf(w).door.last in HistoryOf(w).added;
  }

  /**
   A message with a value whose handler fails is finished on the spot: it leaves the door, and if
   nothing else was unfinished the committed position moves behind it.
   */
  lemma FailedMessageIsFinished(w: Partition)
    requires Inv(w) && Unread(w) != {} && First(Unread(w)) !in w.nulls
    ensures var x, after := First(Unread(w)), Next(w, Poll(Failed, true));
            && x in after.failed && x !in HistoryOf(after).door.offsets
            && (HistoryOf(w).door.offsets == {} ==> after.committed == after.position == x + 1)
  {
    FetchKeepsInv(w);
    var x, fetched := First(Unread(w)), Fetched(w);
    RemoveTakesOnly(HistoryOf(fetched).door, x);
    if HistoryOf(w).door.offsets == {} {
      assert HistoryOf(fetched).door.offsets == {x};
      assert Consumed({}, HistoryOf(fetched).door.last) == x;
    }
  }

  // ----- messages that nobody holds ------------------------------------------

  /** The message stays unfinished in the door and no handler holds it. */
  ghost predicate Stuck(w: Partition, x: int) {
    x in HistoryOf(w).door.offsets && x !in w.handed && x < w.position
  }

  lemma StuckStays(w: Partition, step: Step, threshold: nat, x: int)
    requires Stuck(w, x) && Enabled(w, step, threshold) && !step.Restart?
    ensures Stuck(Next(w, step), x)
  {
    if step.Poll? {
      var offset := First(Unread(w));
      assert x !in Unread(w);
      RemoveTakesOnly(Add(HistoryOf(w).door, offset), offset);
    } else if step.Complete? {
      RemoveTakesOnly(HistoryOf(w).door, step.offset);
    }
  }

  lemma StuckHoldsThePosition(w: Partition, x: int)
    requires Inv(w) && Stuck(w, x)
    ensures w.committed <= x
  {
    assert BelowUnfinished(HistoryOf(w).door, HistoryOf(w).door.lastCommitted);
    assert x in HistoryOf(w).added;
  }

  /**
   A message whose handler was cancelled, or failed on a null value, is never finished by this
   incarnation: without a restart the committed position stays at or below it, so a restart
   delivers it again.
   */
  lemma {:induction false} CancelledMessageHoldsThePosition(w: Partition, steps: seq<Step>, threshold: nat, x: int)
    requires Inv(w) && Stuck(w, x) && Legal(w, steps, threshold)
    requires forall i :: 0 <= i < |steps| ==> !steps[i].Restart?
    ensures Stuck(RunSteps(w, steps, threshold), x)
    ensures RunSteps(w, steps, threshold).committed <= x
    decreases |steps|
  {
    if steps == [] {
      StuckHoldsThePosition(w, x);
    } else {
      StepKeepsInv(w, steps[0], threshold);
      StuckStays(w, steps[0], threshold, x);
      CancelledMessageHoldsThePosition(Next(w, steps[0]), steps[1..], threshold, x);
    }
  }

  /** Such a message: polled for the first time, and its handler did not take it. */
  lemma UntakenMessageIsStuck(w: Partition, end: CallbackEnd, commitOk: bool)
    requires Inv(w) && Unread(w) != {} && First(Unread(w)) !in w.handed
    requires end.Cancelled? || (end.Failed? && First(Unread(w)) in w.nulls)
    ensures Stuck(Next(w, Poll(end, commitOk)), First(Unread(w)))
  {
  }

  /**
   Composed: a message polled for the first time whose handler did not take it holds the committed
   position at or below it as long as the consumer is not restarted, and a restart polls it again.
   */
  lemma UntakenMessageIsPolledAgain(w: Partition, end: CallbackEnd, commitOk: bool, steps: seq<Step>, threshold: nat)
    requires Inv(w) && Unread(w) != {} && First(Unread(w)) !in w.handed
    requires end.Cancelled? || (end.Failed? && First(Unread(w)) in w.nulls)
    requires Legal(Next(w, Poll(end, commitOk)), steps, threshold)
    requires forall i :: 0 <= i < |steps| ==> !steps[i].Restart?
    ensures var w' := RunSteps(Next(w, Poll(end, commitOk)), steps, threshold);
            w'.committed <= First(Unread(w)) && First(Unread(w)) in Unread(Next(w', Restart))
  {
    var x, polled := First(Unread(w)), Next(w, Poll(end, commitOk));
    PollKeepsInv(w, end, commitOk);
    UntakenMessageIsStuck(w, end, commitOk);
    CancelledMessageHoldsThePosition(polled, steps, threshold, x);
    RunKeepsInv(polled, steps, threshold);
    var w' := RunSteps(polled, steps, threshold);
    assert x in HistoryOf(w').added;
  }
}
