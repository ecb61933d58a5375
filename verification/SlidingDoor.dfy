/**
 The sliding doors that turn out-of-order completions into safe commit positions: the one
 every message consumer uses, and the older one of the MSKafka client.
 */
module SlidingDoors {
  import opened Wrappers

  /** A message position of one partition, with the queue message it came with. */
  datatype MessageOffset = MessageOffset(offset: int, message: string)

  // ----- the specification ---------------------------------------------------

  /** The fields of a door in batch mode; `removed` are the keys of the removed messages it still keeps. */
  datatype Door = Door(offsets: set<int>, removed: set<int>, consumed: int, last: int, lastCommitted: int)

  const FRESH := Door({}, {}, -1, -1, -1)

  /** What a removal does besides changing the door: nothing, a commit, or `SortedList.Add` throwing. */
  datatype Effect = NoCommit | CommitAt(offset: int) | DuplicateKey

  lemma {:induction false} MinExists(s: set<int>)
    requires s != {}
    ensures exists m :: m in s && forall x :: x in s ==> m <= x
  {
    if forall m :: m !in s {
      assert false;
    }
    var m :| m in s;
    var rest := s - {m};
    if rest == {} {
      assert s == {m};
    } else {
      MinExists(rest);
      var n :| n in rest && forall x :: x in rest ==> n <= x;
      assert forall x :: x in s ==> x == m || x in rest;
      var least := if m <= n then m else n;
      assert least in s && forall x :: x in s ==> least <= x;
    }
  }

  /** The first element of the sorted set of offsets. */
  function First(s: set<int>): (m: int)
    requires s != {}
    ensures m in s && forall x :: x in s ==> m <= x
  {
    MinExists(s);
    var m :| m in s && forall x :: x in s ==> m <= x;
    m
  }

  function Add(d: Door, offset: int): Door {
    d.(offsets := d.offsets + {offset}, last := offset)
  }

  function Consumed(offsets: set<int>, last: int): int {
    if offsets != {} then First(offsets) - 1 else last
  }

  function Above(s: set<int>, key: int): set<int> {
    set x | x in s && x > key
  }

  /** The end of a removal: advance the committed mark, and commit if the consumed offset is a kept message. */
  function Advance(d: Door): (Door, Effect) {
    if d.consumed <= d.lastCommitted then (d, NoCommit)
    else if d.consumed in d.removed then
      (d.(removed := Above(d.removed, d.consumed), lastCommitted := d.consumed), CommitAt(d.consumed))
    else (d.(lastCommitted := d.consumed), NoCommit)
  }

  function Remove(d: Door, offset: int): (Door, Effect) {
    if offset !in d.offsets then Advance(d)
    else if offset in d.removed then (d.(offsets := d.offsets - {offset}), DuplicateKey)
    else
      var offsets := d.offsets - {offset};
      Advance(d.(offsets := offsets, removed := d.removed + {offset}, consumed := Consumed(offsets, d.last)))
  }

  // ----- the door of the message consumers -----------------------------------

  ghost predicate SortedByOffset(list: seq<MessageOffset>) {
    forall i, j :: 0 <= i < j < |list| ==> list[i].offset < list[j].offset
  }

  function Keys(list: seq<MessageOffset>): set<int> {
    set m | m in list :: m.offset
  }

  lemma InsertMembers(list: seq<MessageOffset>, i: nat, m: MessageOffset)
    requires i <= |list|
    ensures forall x :: x in list[..i] + [m] + list[i..] <==> x in list || x == m
    ensures Keys(list[..i] + [m] + list[i..]) == Keys(list) + {m.offset}
  {
    var list' := list[..i] + [m] + list[i..];
    assert list == list[..i] + list[i..];
    assert forall x :: x in list' <==> x in list[..i] || x == m || x in list[i..];
    assert forall x :: x in list <==> x in list[..i] || x in list[i..];
  }

  lemma InsertKeepsOrder(list: seq<MessageOffset>, i: nat, m: MessageOffset)
    requires SortedByOffset(list) && i <= |list| && (forall k :: 0 <= k < i ==> list[k].offset < m.offset)
    requires i < |list| ==> m.offset < list[i].offset
    ensures SortedByOffset(list[..i] + [m] + list[i..])
  {
    var list' := list[..i] + [m] + list[i..];
    forall j, k | 0 <= j < k < |list'|
      ensures list'[j].offset < list'[k].offset
    {
      assert list'[j] == if j < i then list[j] else if j == i then m else list[j - 1];
      assert list'[k] == if k < i then list[k] else if k == i then m else list[k - 1];
    }
  }

  /** `SortedList.Add` of a new key. */
  method AddSorted(list: seq<MessageOffset>, m: MessageOffset) returns (list': seq<MessageOffset>)
    requires SortedByOffset(list) && m.offset !in Keys(list)
    ensures SortedByOffset(list') && Keys(list') == Keys(list) + {m.offset}
    ensures forall x :: x in list' <==> x in list || x == m
  {
    var i := 0;
    while i < |list| && list[i].offset < m.offset
      invariant 0 <= i <= |list|
      invariant forall k :: 0 <= k < i ==> list[k].offset < m.offset
    {
      i := i + 1;
    }
    assert i < |list| ==> list[i] in list;
    list' := list[..i] + [m] + list[i..];
    InsertMembers(list, i, m);
    InsertKeepsOrder(list, i, m);
  }

  /** `SortedList.IndexOfKey`, -1 when the key is missing. */
  method IndexOfKey(list: seq<MessageOffset>, key: int) returns (index: int)
    ensures -1 <= index < |list| && (index == -1 <==> key !in Keys(list))
    ensures index >= 0 ==> list[index].offset == key
  {
    index := 0;
    while index < |list|
      invariant 0 <= index <= |list|
      invariant forall k :: 0 <= k < index ==> list[k].offset != key
    {
      if list[index].offset == key {
        assert list[index] in list;
        return;
      }
      index := index + 1;
    }
    index := -1;
  }

  /** `TryRemoveBeforeKey`: take the message with the key and drop it with everything before it. */
  method TryRemoveBeforeKey(list: seq<MessageOffset>, key: int)
    returns (found: Option<MessageOffset>, list': seq<MessageOffset>)
    requires SortedByOffset(list)
    ensures found.Some? <==> key in Keys(list)
    ensures found.Some? ==> found.value in list && found.value.offset == key
    ensures found.None? ==> list' == list
    ensures found.Some? ==> SortedByOffset(list') && forall x :: x in list' <==> x in list && x.offset > key
  {
    var index := IndexOfKey(list, key);
    if index < 0 {
      return None, list;
    }
    found := Some(list[index]);
    if index == |list| - 1 {
      list' := [];
    } else {
      list' := list;
      var i := 0;
      while i <= index
        invariant 0 <= i <= index + 1
        invariant list' == list[i..]
      {
        list' := list'[1..];
        i := i + 1;
      }
    }
    assert list' == list[index + 1..];
    KeptAboveKey(list, index);
  }

  lemma KeptAboveKey(list: seq<MessageOffset>, index: nat)
    requires SortedByOffset(list) && index < |list|
    ensures forall x :: x in list[index + 1..] <==> x in list && x.offset > list[index].offset
  {
    forall x | x in list && x.offset > list[index].offset
      ensures x in list[index + 1..]
    {
      var k :| 0 <= k < |list| && list[k] == x;
      assert list[index + 1..][k - index - 1] == x;
    }
  }

  lemma KeysAbove(list: seq<MessageOffset>, keys: set<int>, key: int)
    requires forall m :: m in list ==> m.offset in keys && m.offset > key
    requires forall x :: x in keys && x > key ==> exists m :: m in list && m.offset == x
    ensures Keys(list) == Above(keys, key)
  {
  }

  class SlidingDoor {
    const commitPerMessage: bool
    var offsets: set<int>
    var removedMessageOffsets: seq<MessageOffset>
    var consumedOffset: int
    var lastOffset: int
    var lastCommittedOffset: int

    ghost predicate Valid()
      reads this
    {
      SortedByOffset(removedMessageOffsets)
    }

    ghost function State(): Door
      reads this
    {
      Door(offsets, Keys(removedMessageOffsets), consumedOffset, lastOffset, lastCommittedOffset)
    }

    constructor (commitPerMessage: bool)
      ensures Valid() && State() == FRESH && this.commitPerMessage == commitPerMessage
    {
      this.commitPerMessage := commitPerMessage;
      offsets, removedMessageOffsets := {}, [];
      consumedOffset, lastOffset, lastCommittedOffset := -1, -1, -1;
    }

    /** The number of unfinished messages. */
    function MessageCount(): nat
      reads this
    {
      |offsets|
    }

    method AddOffset(offset: int)
      requires Valid()
      modifies this
      ensures Valid()
      ensures State() == if commitPerMessage then old(State()) else Add(old(State()), offset)
    {
      if !commitPerMessage {
        offsets := offsets + {offset};
        lastOffset := offset;
      }
    }

    /** `committed` is the argument of the commit callback, when the call makes one. */
    method RemoveOffset(m: MessageOffset) returns (committed: Option<MessageOffset>, threw: bool)
      requires Valid()
      modifies this
      ensures Valid()
      ensures forall x :: x in removedMessageOffsets ==> x in old(removedMessageOffsets) || x == m
      ensures commitPerMessage ==> State() == old(State()) && committed == Some(m) && !threw
      ensures !commitPerMessage ==>
                && State() == Remove(old(State()), m.offset).0
                && threw == Remove(old(State()), m.offset).1.DuplicateKey?
                && (match Remove(old(State()), m.offset).1
                    case CommitAt(offset) => committed.Some? && committed.value.offset == offset
                                             && (committed.value == m || committed.value in old(removedMessageOffsets))
                    case _ => committed.None?)
    {
      if commitPerMessage {
        return Some(m), false;
      }
      if m.offset in offsets {
        offsets := offsets - {m.offset};
        if m.offset in Keys(removedMessageOffsets) {
          return None, true;
        }
        removedMessageOffsets := AddSorted(removedMessageOffsets, m);
        consumedOffset := if offsets != {} then First(offsets) - 1 else lastOffset;
      }
      ghost var kept := Keys(removedMessageOffsets);
      committed, threw := None, false;
      if consumedOffset > lastCommittedOffset {
        committed, removedMessageOffsets := TryRemoveBeforeKey(removedMessageOffsets, consumedOffset);
        if committed.Some? {
          KeysAbove(removedMessageOffsets, kept, consumedOffset);
        }
        lastCommittedOffset := consumedOffset;
      }
    }
  }

  // ----- the door of the MSKafka client --------------------------------------

  /** The fields of the older door in batch mode; it commits whatever offset it has consumed. */
  datatype KafkaDoor = KafkaDoor(offsets: set<int>, consumed: int, last: int, lastCommitted: int)

  const KAFKA_FRESH := KafkaDoor({}, -1, -1, -1)

  function KafkaAdd(d: KafkaDoor, offset: int): KafkaDoor {
    d.(offsets := d.offsets + {offset}, last := offset)
  }

  function KafkaRemove(d: KafkaDoor, offset: int): (KafkaDoor, Option<int>) {
    var offsets := d.offsets - {offset};
    var consumed := if offset in d.offsets then Consumed(offsets, d.last) else d.consumed;
    var d' := d.(offsets := offsets, consumed := consumed);
    if consumed > d.lastCommitted then (d'.(lastCommitted := consumed), Some(consumed)) else (d', None)
  }

  /** The class as shown, with the commit callback that its constructor takes actually kept. */
  class KafkaSlidingDoor {
    const commitPerMessage: bool
    var offsets: set<int>
    var consumedOffset: int
    var lastOffset: int
    var lastCommittedOffset: int

    function State(): KafkaDoor
      reads this
    {
      KafkaDoor(offsets, consumedOffset, lastOffset, lastCommittedOffset)
    }

    constructor (commitPerMessage: bool)
      ensures State() == KAFKA_FRESH && this.commitPerMessage == commitPerMessage
    {
      this.commitPerMessage, offsets := commitPerMessage, {};
      consumedOffset, lastOffset, lastCommittedOffset := -1, -1, -1;
    }

    method AddOffset(offset: int)
      modifies this
      ensures State() == KafkaAdd(old(State()), offset)
    {
      offsets := offsets + {offset};
      lastOffset := offset;
    }

    method RemoveOffset(offset: int) returns (committed: Option<int>)
      modifies this
      ensures commitPerMessage ==>
                committed == Some(offset) && State() == old(State()).(offsets := old(offsets) - {offset})
      ensures !commitPerMessage ==> (State(), committed) == KafkaRemove(old(State()), offset)
    {
      if commitPerMessage {
        committed := Some(offset);
        offsets := offsets - {offset};
      } else {
        if offset in offsets {
          offsets := offsets - {offset};
          if |offsets| > 0 {
            consumedOffset := First(offsets) - 1;
          } else {
            consumedOffset := lastOffset;
          }
        } else {
          assert offsets - {offset} == offsets;
        }
        committed := None;
        if consumedOffset > lastCommittedOffset {
          committed := Some(consumedOffset);
          lastCommittedOffset := consumedOffset;
        }
      }
    }
  }

  // ----- runs ----------------------------------------------------------------

  datatype Op = AddOp(offset: int) | RemoveOp(offset: int)

  /** A door with everything that was ever added to it and the commits it made, in order. */
  datatype History = History(door: Door, added: set<int>, commits: seq<int>)

  const START := History(FRESH, {}, [])

  /** The highest committed offset, -1 before the first commit. */
  function LastCommit(commits: seq<int>): int {
    if commits == [] then -1 else commits[|commits| - 1]
  }

  function Do(h: History, op: Op): History {
    match op
    case AddOp(offset) => History(Add(h.door, offset), h.added + {offset}, h.commits)
    case RemoveOp(offset) =>
      var (d, effect) := Remove(h.door, offset);
      History(d, h.added, if effect.CommitAt? then h.commits + [effect.offset] else h.commits)
  }

  function RunOps(ops: seq<Op>): History {
    if ops == [] then START else Do(RunOps(ops[..|ops| - 1]), ops[|ops| - 1])
  }

  /** Offsets are added in strictly increasing order; gaps are allowed. */
  ghost predicate Increasing(ops: seq<Op>) {
    && (forall i :: 0 <= i < |ops| && ops[i].AddOp? ==> ops[i].offset >= 0)
    && (forall i, j :: 0 <= i < j < |ops| && ops[i].AddOp? && ops[j].AddOp? ==> ops[i].offset < ops[j].offset)
  }

  ghost predicate MayDo(h: History, op: Op) {
    op.AddOp? ==> op.offset >= 0 && forall x :: x in h.added ==> x < op.offset
  }

  /** Bookkeeping of the added offsets. */
  ghost predicate OffsetsInv(d: Door, added: set<int>) {
    && d.offsets <= added
    && (forall x :: x in added ==> 0 <= x <= d.last)
    && (added == {} ==> d.last == -1)
    && (added != {} ==> d.last in added)
  }

  /** `x` lies below every unfinished offset. */
  ghost predicate BelowUnfinished(d: Door, x: int) {
    forall y :: y in d.offsets ==> x < y
  }

  /** The committed mark separates the offsets below every unfinished one from the rest. */
  ghost predicate MarkInv(d: Door, added: set<int>) {
    && d.consumed == d.lastCommitted <= d.last
    && BelowUnfinished(d, d.lastCommitted)
    && (forall x {:trigger BelowUnfinished(d, x)} :: x in added && BelowUnfinished(d, x) ==> x <= d.lastCommitted)
  }

  /** The kept messages are the finished ones above the last commit. */
  ghost predicate KeptInv(d: Door, added: set<int>, lastCommit: int) {
    forall x :: x in d.removed <==> x in added && x !in d.offsets && x > lastCommit
  }

  ghost predicate CommitsInv(d: Door, added: set<int>, commits: seq<int>) {
    && -1 <= LastCommit(commits) <= d.lastCommitted
    && (commits != [] ==> LastCommit(commits) in added)
    && (d.lastCommitted in added ==> LastCommit(commits) == d.lastCommitted)
    && (forall i, j :: 0 <= i < j < |commits| ==> commits[i] < commits[j])
  }

  /** The invariant of a door that is fed increasing offsets. */
  ghost predicate DoorInv(h: History) {
    && OffsetsInv(h.door, h.added)
    && MarkInv(h.door, h.added)
    && KeptInv(h.door, h.added, LastCommit(h.commits))
    && CommitsInv(h.door, h.added, h.commits)
  }

  lemma AddKeepsInv(h: History, offset: int)
    requires DoorInv(h) && MayDo(h, AddOp(offset))
    ensures DoorInv(Do(h, AddOp(offset)))
  {
    var h' := Do(h, AddOp(offset));
    assert offset in h'.door.offsets;
    forall x | x in h'.added && BelowUnfinished(h'.door, x)
      ensures x <= h'.door.lastCommitted
    {
      assert BelowUnfinished(h.door, x);
    }
  }

  /** The door after an unfinished offset left it and before the mark moves. */
  lemma Leaving(d: Door, added: set<int>, offset: int, lastCommit: int) returns (mid: Door)
    requires OffsetsInv(d, added) && MarkInv(d, added) && KeptInv(d, added, lastCommit)
    requires offset in d.offsets && lastCommit <= d.lastCommitted
    ensures offset !in d.removed && Remove(d, offset) == Advance(mid)
    ensures mid.offsets == d.offsets - {offset} && mid.last == d.last && mid.consumed == Consumed(mid.offsets, d.last)
    ensures OffsetsInv(mid, added) && KeptInv(mid, added, lastCommit)
    ensures mid.lastCommitted == d.lastCommitted <= mid.consumed <= mid.last
    ensures BelowUnfinished(mid, mid.consumed)
    ensures forall x {:trigger BelowUnfinished(mid, x)} :: x in added && BelowUnfinished(mid, x) ==> x <= mid.consumed
  {
    var offsets := d.offsets - {offset};
    mid := d.(offsets := offsets, removed := d.removed + {offset}, consumed := Consumed(offsets, d.last));
    if offsets != {} {
      assert First(offsets) in added;
    }
  }

  /** Moving the mark to the consumed offset restores the invariant, with or without a commit. */
  lemma AdvanceKeepsInv(added: set<int>, commits: seq<int>, mid: Door) returns (d: Door, effect: Effect)
    requires OffsetsInv(mid, added) && KeptInv(mid, added, LastCommit(commits))
    requires mid.lastCommitted <= mid.consumed <= mid.last
    requires BelowUnfinished(mid, mid.consumed)
    requires forall x {:trigger BelowUnfinished(mid, x)} :: x in added && BelowUnfinished(mid, x) ==> x <= mid.consumed
    requires CommitsInv(mid, added, commits)
    ensures (d, effect) == Advance(mid) && !effect.DuplicateKey?
    ensures OffsetsInv(d, added) && MarkInv(d, added)
    ensures effect.CommitAt? ==> KeptInv(d, added, effect.offset) && effect.offset in added
                                 && effect.offset == d.lastCommitted > LastCommit(commits)
    ensures effect.NoCommit? ==> KeptInv(d, added, LastCommit(commits)) && CommitsInv(d, added, commits)
  {
    d, effect := Advance(mid).0, Advance(mid).1;
    assert BelowUnfinished(d, d.lastCommitted);
    forall x | x in added && BelowUnfinished(d, x)
      ensures x <= d.lastCommitted
    {
      assert BelowUnfinished(mid, x);
    }
    if mid.consumed > mid.lastCommitted && mid.consumed !in mid.removed {
      assert mid.consumed !in added;
    }
  }

  lemma CommitExtends(d: Door, added: set<int>, commits: seq<int>)
    requires d.lastCommitted in added && 0 <= d.lastCommitted && LastCommit(commits) < d.lastCommitted
    requires forall i, j :: 0 <= i < j < |commits| ==> commits[i] < commits[j]
    ensures CommitsInv(d, added, commits + [d.lastCommitted])
  {
  }

  lemma RemoveKeepsInv(h: History, offset: int)
    requires DoorInv(h)
    ensures DoorInv(Do(h, RemoveOp(offset)))
    ensures !Remove(h.door, offset).1.DuplicateKey?
  {
    if offset in h.door.offsets {
      var mid := Leaving(h.door, h.added, offset, LastCommit(h.commits));
      var d, effect := AdvanceKeepsInv(h.added, h.commits, mid);
      if effect.CommitAt? {
        CommitExtends(d, h.added, h.commits);
      }
    }
  }

  lemma {:induction false} AddedByOps(ops: seq<Op>, x: int)
    requires x in RunOps(ops).added
    ensures AddOp(x) in ops
  {
    var front, op := ops[..|ops| - 1], ops[|ops| - 1];
    if x in RunOps(front).added {
      AddedByOps(front, x);
      assert ops == front + [op];
    }
  }

  /** The next operation of an increasing run may be done. */
  lemma NextMayRun(ops: seq<Op>)
    requires Increasing(ops) && ops != []
    ensures MayDo(RunOps(ops[..|ops| - 1]), ops[|ops| - 1])
  {
    var front, op := ops[..|ops| - 1], ops[|ops| - 1];
    forall x | x in RunOps(front).added && op.AddOp?
      ensures x < op.offset
    {
      AddedByOps(front, x);
      var i :| 0 <= i < |front| && front[i] == AddOp(x);
      assert ops[i] == AddOp(x);
    }
  }

  lemma StepKeepsInv(h: History, op: Op)
    requires DoorInv(h) && MayDo(h, op)
    ensures DoorInv(Do(h, op))
  {
    if op.AddOp? {
      AddKeepsInv(h, op.offset);
    } else {
      RemoveKeepsInv(h, op.offset);
    }
  }

  /** No run of increasing adds and removals in any order leaves the invariant. */
  lemma {:induction false} EveryRunKeepsInv(ops: seq<Op>)
    requires Increasing(ops)
    ensures DoorInv(RunOps(ops))
  {
    if ops == [] {
    } else {
      EveryRunKeepsInv(ops[..|ops| - 1]);
      NextMayRun(ops);
      StepKeepsInv(RunOps(ops[..|ops| - 1]), ops[|ops| - 1]);
    }
  }

  // ----- what the door promises ----------------------------------------------

  /** Every offset up to `x` that was added has been removed again. */
  ghost predicate Finished(h: History, x: int) {
    x in h.added && BelowUnfinished(h.door, x)
  }

  /**
   Whatever the order of removals: commits strictly increase, every committed offset was added
   and lies below every unfinished one, no removal throws, and once nothing is unfinished the
   last commit is the last added offset.
   */
  lemma CommitsAreSafe(ops: seq<Op>)
    requires Increasing(ops)
    ensures var h := RunOps(ops);
            && (forall i, j :: 0 <= i < j < |h.commits| ==> h.commits[i] < h.commits[j])
            && (forall i :: 0 <= i < |h.commits| ==> h.commits[i] <= LastCommit(h.commits))
            && (h.commits != [] ==> Finished(h, LastCommit(h.commits)))
            && (forall o :: !Remove(h.door, o).1.DuplicateKey?)
            && (h.added != {} && h.door.offsets == {} ==> LastCommit(h.commits) == h.door.last && h.door.last in h.added)
  {
    EveryRunKeepsInv(ops);
    var h := RunOps(ops);
    forall o
      ensures !Remove(h.door, o).1.DuplicateKey?
    {
      RemoveKeepsInv(h, o);
    }
    if h.added != {} && h.door.offsets == {} {
      assert BelowUnfinished(h.door, h.door.last);
    }
  }

  /** Every finished offset is covered by a commit. */
  ghost predicate Covered(h: History) {
    forall x :: Finished(h, x) ==> x <= LastCommit(h.commits)
  }

  /** Removing `offset` takes away the first unfinished offset, which is what moves the door on. */
  predicate RemovesFirst(h: History, offset: int) {
    offset in h.door.offsets && offset == First(h.door.offsets)
  }

  /** The offset just before the next unfinished one is the offset of a message, or none is left unfinished. */
  predicate NoGapBehind(h: History, offset: int) {
    var rest := h.door.offsets - {offset};
    rest == {} || First(rest) - 1 in h.added
  }

  lemma SameFinished(h: History, h': History)
    requires h'.added == h.added && h'.commits == h.commits && h'.door.offsets <= h.door.offsets
    requires forall x :: x in h.added && BelowUnfinished(h'.door, x) ==> BelowUnfinished(h.door, x)
    ensures Covered(h') <==> Covered(h)
  {
    forall x
      ensures Finished(h', x) <==> Finished(h, x)
    {
    }
  }

  /** Removing the first unfinished offset commits everything finished, or leaves it all uncommitted at a gap. */
  lemma FirstRemovalCoversIff(h: History, offset: int)
    requires DoorInv(h) && RemovesFirst(h, offset)
    ensures Covered(Do(h, RemoveOp(offset))) <==> NoGapBehind(h, offset)
  {
    var h' := Do(h, RemoveOp(offset));
    RemoveKeepsInv(h, offset);
    var mid := Leaving(h.door, h.added, offset, LastCommit(h.commits));
    assert h'.door == Advance(mid).0;
    assert BelowUnfinished(h'.door, offset) && Finished(h', offset);
  }

  /** Any other removal covers no more and no less than was covered before. */
  lemma OtherRemovalsCoverTheSame(h: History, offset: int)
    requires DoorInv(h) && !RemovesFirst(h, offset)
    ensures Covered(Do(h, RemoveOp(offset))) <==> Covered(h)
  {
    var h' := Do(h, RemoveOp(offset));
    if offset in h.door.offsets {
      var first := First(h.door.offsets);
      var mid := Leaving(h.door, h.added, offset, LastCommit(h.commits));
      assert first in mid.offsets && First(mid.offsets) == first;
      assert h'.door == Advance(mid).0;
      assert mid.consumed !in mid.removed by {
        if mid.consumed in h.added {
          assert BelowUnfinished(h.door, mid.consumed);
        }
      }
      SameFinished(h, h');
    }
  }

  lemma AddsCoverTheSame(h: History, offset: int)
    requires DoorInv(h) && MayDo(h, AddOp(offset))
    ensures Covered(Do(h, AddOp(offset))) <==> Covered(h)
  {
    var h' := Do(h, AddOp(offset));
    forall x
      ensures Finished(h', x) <==> Finished(h, x)
    {
      assert offset in h'.door.offsets;
      if x in h.added && BelowUnfinished(h.door, x) {
        assert BelowUnfinished(h'.door, x);
      }
      if Finished(h', x) {
        assert BelowUnfinished(h.door, x);
      }
    }
  }

  /** The last removal of a first unfinished offset met no gap; true as well when there was none. */
  predicate LastAdvanceMetNoGap(ops: seq<Op>) {
    if ops == [] then true
    else
      var front, op := ops[..|ops| - 1], ops[|ops| - 1];
      if op.RemoveOp? && RemovesFirst(RunOps(front), op.offset) then NoGapBehind(RunOps(front), op.offset)
      else LastAdvanceMetNoGap(front)
  }

  /**
   A finished offset is not always committed at once: the door looks for the message at the
   position just before the first unfinished one, and with gaps there may be none. In any run all
   finished offsets are covered by a commit if and only if the last removal of a first unfinished
   offset left none unfinished, or left as the first one an offset whose predecessor was added.
   */
  lemma {:induction false} FinishedAreCommittedIff(ops: seq<Op>)
    requires Increasing(ops)
    ensures Covered(RunOps(ops)) <==> LastAdvanceMetNoGap(ops)
  {
    if ops == [] {
    } else {
      var front, op := ops[..|ops| - 1], ops[|ops| - 1];
      FinishedAreCommittedIff(front);
      EveryRunKeepsInv(front);
      NextMayRun(ops);
      if op.AddOp? {
        AddsCoverTheSame(RunOps(front), op.offset);
      } else if RemovesFirst(RunOps(front), op.offset) {
        FirstRemovalCoversIff(RunOps(front), op.offset);
      } else {
        OtherRemovalsCoverTheSame(RunOps(front), op.offset);
      }
    }
  }

  /** The `n`-th operation does not take away a first unfinished offset in front of a gap. */
  predicate MeetsNoGap(ops: seq<Op>, n: nat)
    requires n < |ops|
  {
    ops[n].RemoveOp? && RemovesFirst(RunOps(ops[..n]), ops[n].offset) ==> NoGapBehind(RunOps(ops[..n]), ops[n].offset)
  }

  /** What the next operation means for the last advance of the run. */
  lemma LastAdvanceStep(ops: seq<Op>, n: nat)
    requires n < |ops|
    ensures LastAdvanceMetNoGap(ops[..n + 1]) ==> MeetsNoGap(ops, n)
    ensures MeetsNoGap(ops, n) && LastAdvanceMetNoGap(ops[..n]) ==> LastAdvanceMetNoGap(ops[..n + 1])
  {
    assert ops[..n + 1][..n] == ops[..n];
  }

  lemma {:induction false} NoGapSoFar(ops: seq<Op>, n: nat)
    requires n <= |ops| && forall k :: 0 <= k < n ==> MeetsNoGap(ops, k)
    ensures LastAdvanceMetNoGap(ops[..n])
  {
    if n == 0 {
    } else {
      NoGapSoFar(ops, n - 1);
      LastAdvanceStep(ops, n - 1);
    }
  }

  /** Finished offsets are covered at every point of a run if and only if no removal meets a gap. */
  lemma CoveredThroughoutIff(ops: seq<Op>)
    requires Increasing(ops)
    ensures (forall n :: 0 <= n <= |ops| ==> Covered(RunOps(ops[..n]))) <==>
            (forall n :: 0 <= n < |ops| ==> MeetsNoGap(ops, n))
  {
    forall n | 0 <= n <= |ops|
      ensures Covered(RunOps(ops[..n])) <==> LastAdvanceMetNoGap(ops[..n])
    {
      FinishedAreCommittedIff(ops[..n]);
    }
    if forall n :: 0 <= n <= |ops| ==> Covered(RunOps(ops[..n])) {
      forall n | 0 <= n < |ops|
        ensures MeetsNoGap(ops, n)
      {
        assert Covered(RunOps(ops[..n + 1]));
        LastAdvanceStep(ops, n);
      }
    }
    if forall n :: 0 <= n < |ops| ==> MeetsNoGap(ops, n) {
      forall n | 0 <= n <= |ops|
        ensures Covered(RunOps(ops[..n]))
      {
        NoGapSoFar(ops, n);
      }
    }
  }

  /** A gap that delays the commit of a finished message until the next one finishes. */
  lemma GapDelaysCommit()
    ensures var h := RunOps([AddOp(5), AddOp(8), RemoveOp(5)]);
            Finished(h, 5) && h.commits == [] && !Covered(h)
  {
    var ops := [AddOp(5), AddOp(8), RemoveOp(5)];
    assert ops[..2] == [AddOp(5), AddOp(8)] && ops[..2][..1] == [AddOp(5)] && ops[..2][..1][..0] == [];
    assert RunOps(ops[..2][..1]) == Do(START, AddOp(5));
    assert RunOps(ops[..2]) == Do(Do(START, AddOp(5)), AddOp(8));
    var h := RunOps(ops[..2]);
    assert h.door == Door({5, 8}, {}, -1, 8, -1) && h.commits == [] && h.added == {5, 8};
    assert h.door.offsets - {5} == {8};
    assert First({8}) == 8;
    assert Finished(RunOps(ops), 5) && LastCommit(RunOps(ops).commits) == -1;
  }

  /** Offsets without gaps: each one added is the successor of the one added before it. */
  ghost predicate Consecutive(added: set<int>) {
    forall x, y, z :: x in added && z in added && x <= y <= z ==> y in added
  }

  /** Without gaps, every finished offset is covered by a commit as soon as it is finished. */
  lemma ConsecutiveOffsetsCommitAtOnce(ops: seq<Op>)
    requires Increasing(ops) && Consecutive(RunOps(ops).added)
    ensures Covered(RunOps(ops))
  {
    EveryRunKeepsInv(ops);
    var h := RunOps(ops);
    forall x | Finished(h, x)
      ensures x <= LastCommit(h.commits)
    {
      assert h.door.lastCommitted in h.added;
    }
  }

  // ----- the two doors compared ----------------------------------------------

  datatype KafkaHistory = KafkaHistory(door: KafkaDoor, commits: seq<int>)

  function KafkaDo(h: KafkaHistory, op: Op): KafkaHistory {
    match op
    case AddOp(offset) => KafkaHistory(KafkaAdd(h.door, offset), h.commits)
    case RemoveOp(offset) =>
      var (d, c) := KafkaRemove(h.door, offset);
      KafkaHistory(d, if c.Some? then h.commits + [c.value] else h.commits)
  }

  function RunKafkaOps(ops: seq<Op>): KafkaHistory {
    if ops == [] then KafkaHistory(KAFKA_FRESH, []) else KafkaDo(RunKafkaOps(ops[..|ops| - 1]), ops[|ops| - 1])
  }

  /** The commits at offsets of messages that were added. */
  function OfMessages(commits: seq<int>, added: set<int>): seq<int> {
    if commits == [] then []
    else
      var c := commits[|commits| - 1];
      OfMessages(commits[..|commits| - 1], added) + (if c in added then [c] else [])
  }

  lemma {:induction false} LaterAddsDoNotMatter(commits: seq<int>, added: set<int>, offset: int)
    requires forall i :: 0 <= i < |commits| ==> commits[i] < offset
    ensures OfMessages(commits, added + {offset}) == OfMessages(commits, added)
  {
    if commits == [] {
    } else {
      LaterAddsDoNotMatter(commits[..|commits| - 1], added, offset);
    }
  }

  lemma OfMessagesSnoc(commits: seq<int>, c: int, added: set<int>)
    ensures OfMessages(commits + [c], added) == OfMessages(commits, added) + (if c in added then [c] else [])
  {
    assert (commits + [c])[..|commits|] == commits;
  }

  /** The four marks that both doors keep. */
  function Marks(d: Door): KafkaDoor {
    KafkaDoor(d.offsets, d.consumed, d.last, d.lastCommitted)
  }

  /** Advancing moves the mark to the consumed offset, and commits there if a message is kept. */
  lemma AdvanceMarks(mid: Door)
    requires mid.lastCommitted <= mid.consumed
    ensures var (d, effect) := Advance(mid);
            && Marks(d) == Marks(mid).(lastCommitted := mid.consumed)
            && effect == (if mid.consumed > mid.lastCommitted && mid.consumed in mid.removed
                          then CommitAt(mid.consumed) else NoCommit)
  {
  }

  /** Both doors end a removal in the same marks. */
  ghost predicate SameRemoval(h: History, result: (Door, Effect), kafka: (KafkaDoor, Option<int>)) {
    && kafka.0 == Marks(result.0)
    && kafka.1 == (if result.0.lastCommitted > h.door.lastCommitted then Some(result.0.lastCommitted) else None)
    && result.1 == (if kafka.1.Some? && kafka.1.value in h.added then CommitAt(kafka.1.value) else NoCommit)
  }

  lemma KafkaRemovesUnfinished(d: Door, offset: int, mid: Door)
    requires offset in d.offsets && mid.offsets == d.offsets - {offset} && mid.last == d.last
    requires mid.consumed == Consumed(mid.offsets, d.last) && mid.lastCommitted == d.lastCommitted <= mid.consumed
    ensures KafkaRemove(Marks(d), offset) ==
            (Marks(mid).(lastCommitted := mid.consumed),
             if mid.consumed > mid.lastCommitted then Some(mid.consumed) else None)
  {
  }

  /** On one removal the older door commits whenever the mark moves, the other one only at a message. */
  lemma RemovalsAgree(h: History, offset: int)
    requires DoorInv(h)
    ensures SameRemoval(h, Remove(h.door, offset), KafkaRemove(Marks(h.door), offset))
  {
    if offset in h.door.offsets {
      var mid := Leaving(h.door, h.added, offset, LastCommit(h.commits));
      KafkaRemovesUnfinished(h.door, offset, mid);
      AdvanceAgrees(h, mid);
    } else {
      assert h.door.offsets - {offset} == h.door.offsets;
    }
  }

  lemma AdvanceAgrees(h: History, mid: Door)
    requires KeptInv(mid, h.added, LastCommit(h.commits)) && BelowUnfinished(mid, mid.consumed)
    requires LastCommit(h.commits) <= mid.lastCommitted == h.door.lastCommitted <= mid.consumed
    ensures SameRemoval(h, Advance(mid),
                        (Marks(mid).(lastCommitted := mid.consumed),
                         if mid.consumed > mid.lastCommitted then Some(mid.consumed) else None))
  {
    AdvanceMarks(mid);
  }

  /** What relates the two doors along a run. */
  ghost predicate Agree(h: History, k: KafkaHistory) {
    && k.door == Marks(h.door)
    && h.commits == OfMessages(k.commits, h.added)
    && (forall i :: 0 <= i < |k.commits| ==> k.commits[i] <= LastCommit(k.commits))
    && LastCommit(k.commits) == h.door.lastCommitted
  }

  lemma AgreeStep(h: History, k: KafkaHistory, op: Op)
    requires DoorInv(h) && Agree(h, k) && MayDo(h, op)
    ensures Agree(Do(h, op), KafkaDo(k, op))
  {
    if op.AddOp? {
      LaterAddsDoNotMatter(k.commits, h.added, op.offset);
    } else {
      RemovalsAgree(h, op.offset);
      var c := KafkaRemove(k.door, op.offset).1;
      if c.Some? {
        OfMessagesSnoc(k.commits, c.value, h.added);
      }
    }
  }

  /**
   The consumers' door refines the older one: on the same calls all four marks agree, and it
   commits exactly those of the older door's commits that name a message, in the same order. The
   older door covers every finished offset at once, gaps or not.
   */
  lemma {:induction false} DoorsAgree(ops: seq<Op>)
    requires Increasing(ops)
    ensures Agree(RunOps(ops), RunKafkaOps(ops))
    ensures forall x :: Finished(RunOps(ops), x) ==> x <= LastCommit(RunKafkaOps(ops).commits)
  {
    EveryRunKeepsInv(ops);
    if ops == [] {
    } else {
      var front, op := ops[..|ops| - 1], ops[|ops| - 1];
      DoorsAgree(front);
      EveryRunKeepsInv(front);
      NextMayRun(ops);
      AgreeStep(RunOps(front), RunKafkaOps(front), op);
    }
  }
}
