/**
 The mailboxes that are to run the messages of one key one at a time and in order: the command
 loop that fills, schedules and drops them, the run loops on other threads, and exactly when a
 dropped mailbox lets two messages of the key run at once.
 */
module Mailboxes {
  import opened Wrappers

  /** A command in the processor's queue; messages are numbered in the order they were submitted. */
  datatype Command = ProcessMessage(message: nat) | CompleteMessage(box: nat)

  /**
   Where the run loop of a mailbox stands: nobody handles messages; a thread is in the loop, which
   awaits `running` if there is one; or a thread has left the loop and not yet reset the flag.
   */
  datatype Loop = Idle | Looping(running: Option<nat>, processed: nat) | Exiting

  /**
   A mailbox. Threads that reset the flag are `checkers` until they look at the queue, and then
   `callers` about to schedule the mailbox again or `posters` about to report it empty.
   */
  datatype Box = Box(queue: seq<nat>, loop: Loop, checkers: nat, callers: nat, posters: nat)

  const NEW_BOX := Box([], Idle, 0, 0, 0)

  /**
   Everything that concerns one key. `current` is the dictionary's mailbox for it, `scheduling` the
   mailbox the command loop has filled and not yet scheduled, and `started` the messages whose tasks
   were started, in order.
   */
  datatype World = World(
    batch: nat,
    submitted: nat,
    commands: seq<Command>,
    current: Option<nat>,
    boxes: seq<Box>,
    scheduling: Option<nat>,
    started: seq<nat>)

  function Start(batch: nat): World {
    World(batch, 0, [], None, [], None, [])
  }

  /** `Submit` is the call of a client, `Dispatch` and `Schedule` are the command loop's, the rest run loops'. */
  datatype Step =
    | Submit
    | Dispatch
    | Schedule
    | Take(box: nat)
    | Finish(box: nat)
    | Leave(box: nat)
    | Exit(box: nat)
    | Check(box: nat)
    | CallAgain(box: nat)
    | Post(box: nat)

  /** The loop is between two messages. */
  predicate Between(b: Box) {
    b.loop.Looping? && b.loop.running.None?
  }

  predicate Running(b: Box) {
    b.loop.Looping? && b.loop.running.Some?
  }

  predicate Enabled(w: World, step: Step) {
    match step
    case Submit => true
    case Dispatch => w.scheduling.None? && w.commands != []
    case Schedule => w.scheduling.Some? && w.scheduling.value < |w.boxes|
    case Take(k) =>
      k < |w.boxes| && Between(w.boxes[k]) && w.boxes[k].loop.processed < w.batch && w.boxes[k].queue != []
    case Finish(k) => k < |w.boxes| && Running(w.boxes[k])
    case Leave(k) =>
      k < |w.boxes| && Between(w.boxes[k]) && (w.boxes[k].loop.processed >= w.batch || w.boxes[k].queue == [])
    case Exit(k) => k < |w.boxes| && w.boxes[k].loop.Exiting?
    case Check(k) => k < |w.boxes| && w.boxes[k].checkers > 0
    case CallAgain(k) => k < |w.boxes| && w.boxes[k].callers > 0
    case Post(k) => k < |w.boxes| && w.boxes[k].posters > 0
  }

  /** `EnterHandlingMessage` and, if it succeeds, the start of `Run`. */
  function Enter(b: Box): Box {
    if b.loop.Idle? then b.(loop := Looping(None, 0)) else b
  }

  /** `ExecuteProcessCommand` up to the enqueued message. */
  function Enqueue(w: World, message: nat): World {
    var boxes := if w.current.Some? then w.boxes else w.boxes + [NEW_BOX];
    var k := if w.current.Some? then w.current.value else |w.boxes|;
    if k < |boxes| then
      w.(boxes := boxes[k := boxes[k].(queue := boxes[k].queue + [message])], current := Some(k), scheduling := Some(k))
    else w
  }

  /** `CompleteProcessMessage`: an empty mailbox drops the dictionary's entry for its key, whichever that is. */
  function Complete(w: World, box: nat): World {
    if box < |w.boxes| && w.boxes[box].queue == [] then w.(current := None) else w
  }

  function Next(w: World, step: Step): World
    requires Enabled(w, step)
  {
    match step
    case Submit => w.(submitted := w.submitted + 1, commands := w.commands + [ProcessMessage(w.submitted)])
    case Dispatch =>
      var rest := w.(commands := w.commands[1..]);
      (match w.commands[0]
       case ProcessMessage(m) => Enqueue(rest, m)
       case CompleteMessage(k) => Complete(rest, k))
    case Schedule =>
      var k := w.scheduling.value;
      w.(boxes := w.boxes[k := Enter(w.boxes[k])], scheduling := None)
    case Take(k) =>
      var b := w.boxes[k];
      w.(boxes := w.boxes[k := b.(queue := b.queue[1..], loop := Looping(Some(b.queue[0]), b.loop.processed + 1))],
         started := w.started + [b.queue[0]])
    case Finish(k) => w.(boxes := w.boxes[k := w.boxes[k].(loop := Looping(None, w.boxes[k].loop.processed))])
    case Leave(k) => w.(boxes := w.boxes[k := w.boxes[k].(loop := Exiting)])
    case Exit(k) => w.(boxes := w.boxes[k := w.boxes[k].(loop := Idle, checkers := w.boxes[k].checkers + 1)])
    case Check(k) =>
      var b := w.boxes[k].(checkers := w.boxes[k].checkers - 1);
      w.(boxes := w.boxes[k := if b.queue != [] then b.(callers := b.callers + 1) else b.(posters := b.posters + 1)])
    case CallAgain(k) =>
      w.(boxes := w.boxes[k := Enter(w.boxes[k].(callers := w.boxes[k].callers - 1))])
    case Post(k) =>
      w.(boxes := w.boxes[k := w.boxes[k].(posters := w.boxes[k].posters - 1)],
         commands := w.commands + [CompleteMessage(k)])
  }

  // ----- runs ----------------------------------------------------------------

  ghost predicate Legal(w: World, steps: seq<Step>)
    decreases |steps|
  {
    steps == [] || (Enabled(w, steps[0]) && Legal(Next(w, steps[0]), steps[1..]))
  }

  ghost function Run(w: World, steps: seq<Step>): World
    requires Legal(w, steps)
    decreases |steps|
  {
    if steps == [] then w else Run(Next(w, steps[0]), steps[1..])
  }

  lemma {:induction false} LegalPrefix(w: World, steps: seq<Step>, n: nat)
    requires Legal(w, steps) && n <= |steps|
    ensures Legal(w, steps[..n])
    ensures n < |steps| ==>
              Enabled(Run(w, steps[..n]), steps[n]) && Legal(w, steps[..n + 1])
              && Run(w, steps[..n + 1]) == Next(Run(w, steps[..n]), steps[n])
    decreases n
  {
    if n == 0 {
      if steps != [] {
        assert steps[..1][1..] == [];
      }
    } else {
      LegalPrefix(Next(w, steps[0]), steps[1..], n - 1);
      assert steps[..n][1..] == steps[1..][..n - 1];
      if n < |steps| {
        assert steps[..n + 1][1..] == steps[1..][..n];
      }
    }
  }

  /** No message, and nobody who runs one. */
  predicate Quiet(b: Box) {
    b.queue == [] && !Running(b)
  }

  /** The step drops the key's mailbox from the dictionary. */
  predicate Removes(w: World, step: Step) {
    && step.Dispatch? && w.commands != [] && w.commands[0].CompleteMessage?
    && w.commands[0].box < |w.boxes| && w.boxes[w.commands[0].box].queue == []
    && w.current.Some?
  }

  /** If the step drops a mailbox, that one is quiet. */
  predicate Clean(w: World, step: Step) {
    Removes(w, step) && w.current.value < |w.boxes| ==> Quiet(w.boxes[w.current.value])
  }

  ghost predicate CleanRun(w: World, steps: seq<Step>)
    requires Legal(w, steps)
    decreases |steps|
  {
    steps == [] || (Clean(w, steps[0]) && CleanRun(Next(w, steps[0]), steps[1..]))
  }

  /** No two messages of the key run at once. */
  ghost predicate Exclusive(w: World) {
    forall i, j :: 0 <= i < |w.boxes| && 0 <= j < |w.boxes| && Running(w.boxes[i]) && Running(w.boxes[j]) ==> i == j
  }

  /** Messages were started in the order of their submission, none left out. */
  ghost predicate StartedInOrder(w: World) {
    forall k :: 0 <= k < |w.started| ==> w.started[k] == k
  }

  // ----- no message is forgotten ---------------------------------------------

  ghost predicate Refers(w: World) {
    && (w.current.Some? ==> w.current.value < |w.boxes|)
    && (w.scheduling.Some? ==> w.scheduling.value < |w.boxes|)
    && (forall i :: 0 <= i < |w.commands| && w.commands[i].CompleteMessage? ==> w.commands[i].box < |w.boxes|)
  }

  /** Somebody is about to look at the mailbox's queue. */
  predicate Watched(w: World, k: nat)
    requires k < |w.boxes|
  {
    !w.boxes[k].loop.Idle? || w.boxes[k].checkers > 0 || w.boxes[k].callers > 0 || w.scheduling == Some(k)
  }

  ghost predicate Base(w: World) {
    Refers(w) && forall k :: 0 <= k < |w.boxes| && w.boxes[k].queue != [] ==> Watched(w, k)
  }

  /** In any run whatever, a mailbox that holds a message has somebody about to look at it. */
  lemma StepKeepsBase(w: World, step: Step)
    requires Base(w) && Enabled(w, step)
    ensures Base(Next(w, step))
  {
    var w' := Next(w, step);
    forall k | 0 <= k < |w'.boxes| && w'.boxes[k].queue != []
      ensures Watched(w', k)
    {
      if k < |w.boxes| {
        assert w.boxes[k].queue != [] ==> Watched(w, k);
      }
    }
  }

  lemma {:induction false} NoMessageIsForgotten(w: World, steps: seq<Step>)
    requires Base(w) && Legal(w, steps)
    ensures Base(Run(w, steps)) && Run(w, steps).batch == w.batch
    decreases |steps|
  {
    if steps == [] {
    } else {
      StepKeepsBase(w, steps[0]);
      NoMessageIsForgotten(Next(w, steps[0]), steps[1..]);
    }
  }

  // ----- runs whose removals are clean ---------------------------------------

  function Messages(commands: seq<Command>): seq<nat> {
    if commands == [] then []
    else if commands[0].ProcessMessage? then [commands[0].message] + Messages(commands[1..])
    else Messages(commands[1..])
  }

  function CountTo(n: nat): seq<nat> {
    seq(n, i => i)
  }

  function Waiting(w: World): seq<nat> {
    if w.current.Some? && w.current.value < |w.boxes| then w.boxes[w.current.value].queue else []
  }

  /** All mailboxes but the current one are quiet, and all messages are where their turn is. */
  ghost predicate Inv(w: World) {
    && Base(w)
    && (forall k :: 0 <= k < |w.boxes| && w.current != Some(k) ==> Quiet(w.boxes[k]))
    && w.started + Waiting(w) + Messages(w.commands) == CountTo(w.submitted)
  }

  lemma {:induction false} MessagesSnoc(commands: seq<Command>, c: Command)
    ensures Messages(commands + [c]) == Messages(commands) + (if c.ProcessMessage? then [c.message] else [])
  {
    if commands == [] {
      assert [] + [c] == [c] && [c][1..] == [];
    } else {
      assert (commands + [c])[1..] == commands[1..] + [c];
      MessagesSnoc(commands[1..], c);
    }
  }

  lemma SubmitKeepsInv(w: World)
    requires Inv(w)
    ensures Inv(Next(w, Submit))
  {
    StepKeepsBase(w, Submit);
    MessagesSnoc(w.commands, ProcessMessage(w.submitted));
    var w' := Next(w, Submit);
    assert w'.started + Waiting(w') + Messages(w'.commands) == CountTo(w.submitted) + [w.submitted];
  }

  lemma DispatchKeepsInv(w: World)
    requires Inv(w) && Enabled(w, Dispatch) && Clean(w, Dispatch)
    ensures Inv(Next(w, Dispatch))
  {
    StepKeepsBase(w, Dispatch);
    var w' := Next(w, Dispatch);
    match w.commands[0]
    case ProcessMessage(m) =>
      assert Messages(w.commands) == [m] + Messages(w.commands[1..]);
      assert Waiting(w') == Waiting(w) + [m];
      assert w'.started + Waiting(w') + Messages(w'.commands) == w.started + Waiting(w) + Messages(w.commands);
    case CompleteMessage(k) =>
      assert Messages(w.commands) == Messages(w.commands[1..]);
  }

  lemma Associative(a: seq<nat>, b: seq<nat>, c: seq<nat>)
    ensures (a + b) + c == a + (b + c)
  {
  }

  lemma TakeKeepsInv(w: World, k: nat)
    requires Inv(w) && Enabled(w, Take(k))
    ensures Inv(Next(w, Take(k)))
  {
    StepKeepsBase(w, Take(k));
    assert w.current == Some(k);
    var w' := Next(w, Take(k));
    assert Waiting(w) == [w.boxes[k].queue[0]] + Waiting(w');
    Associative(w.started, [w.boxes[k].queue[0]], Waiting(w'));
  }

  lemma PostKeepsInv(w: World, k: nat)
    requires Inv(w) && Enabled(w, Post(k))
    ensures Inv(Next(w, Post(k)))
  {
    StepKeepsBase(w, Post(k));
    MessagesSnoc(w.commands, CompleteMessage(k));
  }

  lemma CleanStepKeepsInv(w: World, step: Step)
    requires Inv(w) && Enabled(w, step) && Clean(w, step)
    ensures Inv(Next(w, step))
  {
    match step
    case Submit => SubmitKeepsInv(w);
    case Dispatch => DispatchKeepsInv(w);
    case Take(k) => TakeKeepsInv(w, k);
    case Post(k) => PostKeepsInv(w, k);
    case _ => StepKeepsBase(w, step);
  }

  lemma InvMeansExclusive(w: World)
    requires Inv(w)
    ensures Exclusive(w) && StartedInOrder(w)
  {
    forall k | 0 <= k < |w.started|
      ensures w.started[k] == k
    {
      assert (w.started + Waiting(w) + Messages(w.commands))[k] == w.started[k];
    }
  }

  /**
   As long as only quiet mailboxes are dropped, the messages of the key run one at a time and in the
   order of their submission, whatever the interleaving of the command loop, the run loops and clients.
   */
  lemma {:induction false} CleanRunsAreExclusive(w: World, steps: seq<Step>)
    requires Inv(w) && Legal(w, steps) && CleanRun(w, steps)
    ensures Inv(Run(w, steps)) && Exclusive(Run(w, steps)) && StartedInOrder(Run(w, steps))
    decreases |steps|
  {
    if steps == [] {
      InvMeansExclusive(w);
    } else {
      CleanStepKeepsInv(w, steps[0]);
      CleanRunsAreExclusive(Next(w, steps[0]), steps[1..]);
    }
  }

  // ----- what dropping a busy mailbox leads to -------------------------------

  /** One more step in front of a clean run. */
  lemma StepFirst(w: World, step: Step, steps: seq<Step>)
    requires Enabled(w, step) && Clean(w, step) && Legal(Next(w, step), steps) && CleanRun(Next(w, step), steps)
    ensures Legal(w, [step] + steps) && CleanRun(w, [step] + steps)
    ensures Run(w, [step] + steps) == Run(Next(w, step), steps)
  {
    assert ([step] + steps)[1..] == steps;
  }

  /** How many steps a mailbox with a message is away from running one. */
  function StepsToRun(w: World, k: nat): nat
    requires k < |w.boxes|
  {
    var b := w.boxes[k];
    if Running(b) then 0
    else if Between(b) then if b.loop.processed < w.batch then 1 else 5
    else if b.loop.Exiting? then 4
    else if b.callers > 0 then 2
    else 3
  }

  /** A dropped mailbox that is not quiet can go on to run a message. */
  lemma {:induction false} DroppedMailboxRuns(w: World, k: nat) returns (steps: seq<Step>)
    requires Base(w) && w.batch > 0 && w.current.None? && w.scheduling.None? && k < |w.boxes| && !Quiet(w.boxes[k])
    ensures Legal(w, steps) && CleanRun(w, steps)
    ensures var w' := Run(w, steps);
            && Base(w') && w'.batch > 0 && w'.current.None? && w'.scheduling.None?
            && k < |w'.boxes| && Running(w'.boxes[k])
    decreases StepsToRun(w, k)
  {
    var b := w.boxes[k];
    if Running(b) {
      steps := [];
    } else {
      assert Watched(w, k);
      var step :=
        if Between(b) then if b.loop.processed < w.batch then Take(k) else Leave(k)
        else if b.loop.Exiting? then Exit(k)
        else if b.callers > 0 then CallAgain(k)
        else Check(k);
      StepKeepsBase(w, step);
      var rest := DroppedMailboxRuns(Next(w, step), k);
      StepFirst(w, step, rest);
      steps := [step] + rest;
    }
  }

  /** While a dropped mailbox runs a message, the next message in the queue gets a second one and runs too. */
  lemma {:induction false} NextMessageRunsToo(w: World, k: nat) returns (steps: seq<Step>)
    requires Base(w) && w.batch > 0 && w.current.None? && w.scheduling.None?
    requires k < |w.boxes| && Running(w.boxes[k]) && exists i :: 0 <= i < |w.commands| && w.commands[i].ProcessMessage?
    ensures Legal(w, steps) && CleanRun(w, steps) && !Exclusive(Run(w, steps))
    decreases |w.commands|
  {
    StepKeepsBase(w, Dispatch);
    var w1 := Next(w, Dispatch);
    if w.commands[0].CompleteMessage? {
      var i :| 0 <= i < |w.commands| && w.commands[i].ProcessMessage?;
      assert w1.commands[i - 1] == w.commands[i];
      var rest := NextMessageRunsToo(w1, k);
      StepFirst(w, Dispatch, rest);
      steps := [Dispatch] + rest;
    } else {
      var d := |w.boxes|;
      var w2 := Next(w1, Schedule);
      var w3 := Next(w2, Take(d));
      assert Running(w3.boxes[k]) && Running(w3.boxes[d]) && k != d;
      StepFirst(w2, Take(d), []);
      StepFirst(w1, Schedule, [Take(d)] + []);
      StepFirst(w, Dispatch, [Schedule] + ([Take(d)] + []));
      steps := [Dispatch] + ([Schedule] + ([Take(d)] + []));
    }
  }

  lemma {:induction false} CleanConcat(w: World, first: seq<Step>, second: seq<Step>)
    requires Legal(w, first) && CleanRun(w, first)
    requires Legal(Run(w, first), second) && CleanRun(Run(w, first), second)
    ensures Legal(w, first + second) && CleanRun(w, first + second)
    ensures Run(w, first + second) == Run(Run(w, first), second)
    decreases |first|
  {
    if first == [] {
      assert [] + second == second;
    } else {
      CleanConcat(Next(w, first[0]), first[1..], second);
      assert (first + second)[1..] == first[1..] + second;
    }
  }

  /** From the removal of a mailbox that is not quiet, clean steps alone lead to two messages running at once. */
  lemma BusyRemovalBreaksExclusion(w: World, k: nat) returns (steps: seq<Step>)
    requires Base(w) && w.batch > 0 && w.current.None? && w.scheduling.None? && k < |w.boxes| && !Quiet(w.boxes[k])
    ensures Legal(w, steps) && CleanRun(w, steps) && !Exclusive(Run(w, steps))
  {
    var first := DroppedMailboxRuns(w, k);
    var w1 := Run(w, first);
    StepKeepsBase(w1, Submit);
    var w2 := Next(w1, Submit);
    assert w2.commands[|w1.commands|].ProcessMessage?;
    var rest := NextMessageRunsToo(w2, k);
    StepFirst(w1, Submit, rest);
    CleanConcat(w, first, [Submit] + rest);
    steps := first + ([Submit] + rest);
  }

  /** However the run goes on, as long as later removals are clean, no two messages run at once. */
  ghost predicate StaysExclusive(w: World) {
    forall more :: Legal(w, more) && CleanRun(w, more) ==> Exclusive(Run(w, more))
  }

  /** Dropping a mailbox keeps messages of the key apart if and only if the mailbox is quiet. */
  lemma RemovalIsSafeIff(w: World)
    requires Inv(w) && w.batch > 0 && Enabled(w, Dispatch) && Removes(w, Dispatch)
    ensures StaysExclusive(Next(w, Dispatch)) <==> Quiet(w.boxes[w.current.value])
  {
    var k := w.current.value;
    var w' := Next(w, Dispatch);
    StepKeepsBase(w, Dispatch);
    if Quiet(w.boxes[k]) {
      CleanStepKeepsInv(w, Dispatch);
      InvStaysExclusive(w');
    } else {
      var more := BusyRemovalBreaksExclusion(w', k);
    }
  }

  lemma InvStaysExclusive(w: World)
    requires Inv(w)
    ensures StaysExclusive(w)
  {
    forall more | Legal(w, more) && CleanRun(w, more)
      ensures Exclusive(Run(w, more))
    {
      CleanRunsAreExclusive(w, more);
    }
  }

  lemma StartIsFine(batch: nat)
    ensures Inv(Start(batch))
  {
  }

  /** Of a run that is not clean, the clean part before its first busy removal. */
  lemma {:induction false} FirstBusyRemoval(w: World, steps: seq<Step>) returns (n: nat)
    requires Legal(w, steps) && !CleanRun(w, steps)
    ensures n < |steps| && Legal(w, steps[..n]) && CleanRun(w, steps[..n])
    ensures Enabled(Run(w, steps[..n]), steps[n]) && !Clean(Run(w, steps[..n]), steps[n])
    decreases |steps|
  {
    if !Clean(w, steps[0]) {
      n := 0;
    } else {
      var m := FirstBusyRemoval(Next(w, steps[0]), steps[1..]);
      n := m + 1;
      assert steps[..n][1..] == steps[1..][..m];
    }
  }

  lemma {:induction false} CleanPrefix(w: World, steps: seq<Step>, n: nat)
    requires Legal(w, steps) && CleanRun(w, steps) && n <= |steps|
    ensures Legal(w, steps[..n]) && CleanRun(w, steps[..n])
    decreases n
  {
    if n == 0 {
    } else {
      CleanPrefix(Next(w, steps[0]), steps[1..], n - 1);
      assert steps[..n][1..] == steps[1..][..n - 1];
    }
  }

  /**
   Messages of one key are kept apart for good at every point of a run if and only if every mailbox
   the run dropped was quiet: it held no message and ran none. The code asks only whether the queue
   of the mailbox that reported itself empty is still empty.
   */
  lemma ExclusionIffQuietRemovals(batch: nat, steps: seq<Step>)
    requires batch > 0 && Legal(Start(batch), steps)
    ensures CleanRun(Start(batch), steps) <==>
            forall n :: 0 <= n <= |steps| ==> Legal(Start(batch), steps[..n]) && StaysExclusive(Run(Start(batch), steps[..n]))
  {
    var w := Start(batch);
    StartIsFine(batch);
    if CleanRun(w, steps) {
      forall n | 0 <= n <= |steps|
        ensures Legal(w, steps[..n]) && StaysExclusive(Run(w, steps[..n]))
      {
        CleanPrefix(w, steps, n);
        CleanRunsAreExclusive(w, steps[..n]);
        InvStaysExclusive(Run(w, steps[..n]));
      }
    } else {
      var n := FirstBusyRemoval(w, steps);
      CleanRunsAreExclusive(w, steps[..n]);
      NoMessageIsForgotten(w, steps[..n]);
      LegalPrefix(w, steps, n);
      RemovalIsSafeIff(Run(w, steps[..n]));
      assert !StaysExclusive(Run(w, steps[..n + 1]));
    }
  }

  // ----- the run that fails --------------------------------------------------

  ghost predicate Leads(w: World, steps: seq<Step>, w': World) {
    Legal(w, steps) && Run(w, steps) == w'
  }

  lemma LeadsOn(w: World, step: Step, steps: seq<Step>, w': World)
    requires Enabled(w, step) && Leads(Next(w, step), steps, w')
    ensures Leads(w, [step] + steps, w')
  {
    assert ([step] + steps)[1..] == steps;
  }

  lemma {:induction false} LeadsThrough(w: World, first: seq<Step>, w1: World, second: seq<Step>, w2: World)
    requires Leads(w, first, w1) && Leads(w1, second, w2)
    ensures Leads(w, first + second, w2)
    decreases |first|
  {
    if first == [] {
      assert [] + second == second;
    } else {
      LeadsThrough(Next(w, first[0]), first[1..], w1, second, w2);
      assert (first + second)[1..] == first[1..] + second;
    }
  }

  /** One step from a world that is written out to another. */
  lemma OneStep(w: World, step: Step, w': World)
    requires Enabled(w, step) && Next(w, step) == w'
    ensures Leads(w, [step], w')
  {
    assert [step][1..] == [];
  }

  lemma Submitted()
    ensures Leads(Start(100), [Submit], World(100, 1, [ProcessMessage(0)], None, [], None, []))
  {
    OneStep(Start(100), Submit, World(100, 1, [ProcessMessage(0)], None, [], None, []));
  }

  /** The first message ends, and its mailbox is found empty, but that is not reported yet. */
  lemma FirstEnds(w: World) returns (w': World)
    requires w == World(100, 1, [], Some(0), [Box([], Looping(Some(0), 1), 0, 0, 0)], None, [0])
    ensures Leads(w, [Finish(0), Leave(0), Exit(0), Check(0)], w')
    ensures w' == World(100, 1, [], Some(0), [Box([], Idle, 0, 0, 1)], None, [0])
  {
    var w1 := w.(boxes := [Box([], Looping(None, 1), 0, 0, 0)]);
    var w2 := w.(boxes := [Box([], Exiting, 0, 0, 0)]);
    var w3 := w.(boxes := [Box([], Idle, 1, 0, 0)]);
    w' := w.(boxes := [Box([], Idle, 0, 0, 1)]);
    OneStep(w3, Check(0), w');
    LeadsOn(w2, Exit(0), [Check(0)], w');
    LeadsOn(w1, Leave(0), [Exit(0)] + [Check(0)], w');
    assert Next(w, Finish(0)).boxes == w1.boxes;
    LeadsOn(w, Finish(0), [Leave(0)] + ([Exit(0)] + [Check(0)]), w');
    assert [Finish(0)] + ([Leave(0)] + ([Exit(0)] + [Check(0)])) == [Finish(0), Leave(0), Exit(0), Check(0)];
  }

  /** A second message is submitted before the report is posted. */
  lemma SecondArrives(w: World) returns (w': World)
    requires w == World(100, 1, [], Some(0), [Box([], Idle, 0, 0, 1)], None, [0])
    ensures Leads(w, [Submit, Post(0)], w')
    ensures w' == World(100, 2, [ProcessMessage(1), CompleteMessage(0)], Some(0), [Box([], Idle, 0, 0, 0)], None, [0])
  {
    var w1 := World(100, 2, [ProcessMessage(1)], Some(0), [Box([], Idle, 0, 0, 1)], None, [0]);
    w' := World(100, 2, [ProcessMessage(1), CompleteMessage(0)], Some(0), [Box([], Idle, 0, 0, 0)], None, [0]);
    assert Next(w1, Post(0)).boxes == w'.boxes;
    OneStep(w1, Post(0), w');
    assert Next(w, Submit) == w1;
    LeadsOn(w, Submit, [Post(0)], w');
    assert [Submit] + [Post(0)] == [Submit, Post(0)];
  }

  /** A message that is dispatched to an idle mailbox runs in it. */
  lemma DispatchedRuns(w: World, m: nat, k: nat) returns (w': World)
    requires w.commands != [] && w.commands[0] == ProcessMessage(m) && w.scheduling.None? && w.batch > 0
    requires if w.current.Some? then k == w.current.value < |w.boxes| && w.boxes[k] == NEW_BOX else k == |w.boxes|
    ensures Leads(w, [Dispatch, Schedule, Take(k)], w')
    ensures w' == w.(commands := w.commands[1..], current := Some(k), started := w.started + [m],
                     boxes := w.boxes[..k] + [Box([], Looping(Some(m), 1), 0, 0, 0)] + (if k < |w.boxes| then w.boxes[k + 1..] else []))
  {
    var w1 := Next(w, Dispatch);
    assert [] + [m] == [m] && [m][1..] == [];
    assert w1.boxes[k] == Box([m], Idle, 0, 0, 0) && w1.scheduling == Some(k);
    var w2 := Next(w1, Schedule);
    assert w2.boxes[k] == Box([m], Looping(None, 0), 0, 0, 0);
    w' := Next(w2, Take(k));
    assert w'.boxes[k] == Box([], Looping(Some(m), 1), 0, 0, 0);
    OneStep(w2, Take(k), w');
    LeadsOn(w1, Schedule, [Take(k)], w');
    LeadsOn(w, Dispatch, [Schedule] + [Take(k)], w');
    assert [Dispatch] + ([Schedule] + [Take(k)]) == [Dispatch, Schedule, Take(k)];
  }

  /** The report drops the mailbox while the second message runs, and a third one is submitted. */
  lemma MailboxIsDropped(w: World) returns (w': World)
    requires w == World(100, 2, [CompleteMessage(0)], Some(0), [Box([], Looping(Some(1), 1), 0, 0, 0)], None, [0, 1])
    ensures !Clean(w, Dispatch) && Leads(w, [Dispatch, Submit], w')
    ensures w' == World(100, 3, [ProcessMessage(2)], None, [Box([], Looping(Some(1), 1), 0, 0, 0)], None, [0, 1])
  {
    var w1 := w.(commands := [], current := None);
    w' := World(100, 3, [ProcessMessage(2)], None, w.boxes, None, [0, 1]);
    OneStep(w1, Submit, w');
    assert Next(w, Dispatch) == w1;
    LeadsOn(w, Dispatch, [Submit], w');
    assert [Dispatch] + [Submit] == [Dispatch, Submit];
  }

  /** One more part of a run. */
  lemma AppendLeads(w: World, first: seq<Step>, w1: World, second: seq<Step>, w2: World) returns (steps: seq<Step>)
    requires Leads(w, first, w1) && Leads(w1, second, w2)
    ensures Leads(w, steps, w2)
  {
    LeadsThrough(w, first, w1, second, w2);
    steps := first + second;
  }

  /** Two messages are submitted, and the second runs while the first one's mailbox is reported empty. */
  lemma SecondRuns() returns (steps: seq<Step>, w: World)
    ensures Leads(Start(100), steps, w)
    ensures w == World(100, 2, [CompleteMessage(0)], Some(0), [Box([], Looping(Some(1), 1), 0, 0, 0)], None, [0, 1])
  {
    Submitted();
    var w0 := World(100, 1, [ProcessMessage(0)], None, [], None, []);
    var w1 := DispatchedRuns(w0, 0, 0);
    assert w1 == World(100, 1, [], Some(0), [Box([], Looping(Some(0), 1), 0, 0, 0)], None, [0]);
    var w2 := FirstEnds(w1);
    var w3 := SecondArrives(w2);
    w := DispatchedRuns(w3, 1, 0);
    assert w3.commands[1..] == [CompleteMessage(0)] && [0] + [1] == [0, 1];
    steps := AppendLeads(Start(100), [Submit], w0, [Dispatch, Schedule, Take(0)], w1);
    steps := AppendLeads(Start(100), steps, w1, [Finish(0), Leave(0), Exit(0), Check(0)], w2);
    steps := AppendLeads(Start(100), steps, w2, [Submit, Post(0)], w3);
    steps := AppendLeads(Start(100), steps, w3, [Dispatch, Schedule, Take(0)], w);
  }

  /** Three messages with a batch of a hundred are enough: the third starts while the second runs. */
  lemma TwoMessagesRunAtOnce() returns (steps: seq<Step>)
    ensures Legal(Start(100), steps) && !Exclusive(Run(Start(100), steps))
    ensures Run(Start(100), steps).submitted == 3
  {
    var w;
    steps, w := SecondRuns();
    var dropped := MailboxIsDropped(w);
    var both := DispatchedRuns(dropped, 2, 1);
    steps := AppendLeads(Start(100), steps, w, [Dispatch, Submit], dropped);
    steps := AppendLeads(Start(100), steps, dropped, [Dispatch, Schedule, Take(1)], both);
    assert Running(both.boxes[0]) && Running(both.boxes[1]);
  }
}
