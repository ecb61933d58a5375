/**
 The nested diagnostics context: an immutable linked stack whose disposals pop whatever is on
 top, and the arrays read from it.
 */
module NestedContexts {
  import opened Wrappers

  /** A context and the ones below it, top first. */
  ghost function Chain(c: NestedContext?): seq<NestedContext> {
    if c == null then [] else [c] + c.below
  }

  class NestedContext {
    const parent: NestedContext?
    const value: string
    const frameLevel: nat
    var disposed: bool
    ghost const below: seq<NestedContext>

    /** The frame level is the length of the chain from here down. */
    ghost predicate WellLinked()
      decreases |below|
    {
      && frameLevel == |Chain(this)|
      && (if parent == null then below == [] else below == [parent] + parent.below && parent.WellLinked())
    }

    constructor (parent: NestedContext?, value: string)
      requires parent != null ==> parent.WellLinked()
      ensures WellLinked() && this.parent == parent && this.value == value && !disposed
      ensures Chain(this) == [this] + Chain(parent)
    {
      this.parent, this.value, disposed := parent, value, false;
      frameLevel := if parent == null then 1 else parent.frameLevel + 1;
      below := if parent == null then [] else [parent] + parent.below;
    }
  }

  function Reverse(s: seq<string>): seq<string> {
    if s == [] then [] else Reverse(s[1..]) + [s[0]]
  }

  lemma {:induction false} ReverseByIndex(s: seq<string>)
    ensures |Reverse(s)| == |s|
    ensures forall k :: 0 <= k < |s| ==> Reverse(s)[k] == s[|s| - 1 - k]
  {
    if s == [] {
    } else {
      ReverseByIndex(s[1..]);
    }
  }

  lemma Associative(a: seq<string>, b: seq<string>, c: seq<string>)
    ensures (a + b) + c == a + (b + c)
  {
  }

  /** One more value moves from the part still to be reversed to the front of what is done. */
  lemma ReverseMoves(all: seq<string>, i: nat, messages: seq<string>)
    requires i < |all| && Reverse(all) == Reverse(all[i..]) + messages
    ensures Reverse(all) == Reverse(all[i + 1..]) + ([all[i]] + messages)
  {
    assert Reverse(all[i..]) == Reverse(all[i + 1..]) + [all[i]] by {
      assert all[i..][0] == all[i] && all[i..][1..] == all[i + 1..];
    }
    Associative(Reverse(all[i + 1..]), [all[i]], messages);
  }

  ghost function ValuesOf(chain: seq<NestedContext>): seq<string> {
    if chain == [] then [] else [chain[0].value] + ValuesOf(chain[1..])
  }

  lemma {:induction false} ValuesByIndex(chain: seq<NestedContext>)
    ensures |ValuesOf(chain)| == |chain|
    ensures forall k :: 0 <= k < |chain| ==> ValuesOf(chain)[k] == chain[k].value
  {
    if chain == [] {
    } else {
      ValuesByIndex(chain[1..]);
    }
  }

  lemma ValueAt(chain: seq<NestedContext>, n: nat, c: NestedContext, rest: seq<NestedContext>)
    requires n <= |chain| && chain[n..] == [c] + rest
    ensures n < |chain| == |ValuesOf(chain)| && ValuesOf(chain)[n] == c.value && chain[n + 1..] == rest
  {
    ValuesByIndex(chain);
    assert chain[n..][0] == c && chain[n + 1..] == chain[n..][1..];
  }

  /** The parent's chain is what lies below. */
  lemma ParentChain(c: NestedContext)
    requires c.WellLinked()
    ensures Chain(c) == [c] + Chain(c.parent) && (c.parent != null ==> c.parent.WellLinked())
  {
  }

  /** One step of a walk down a chain. */
  lemma StepDown(chain: seq<NestedContext>, n: nat, c: NestedContext)
    requires c.WellLinked() && n <= |chain| && Chain(c) == chain[n..]
    ensures n < |chain| == |ValuesOf(chain)| && ValuesOf(chain)[n] == c.value
    ensures Chain(c.parent) == chain[n + 1..] && (c.parent != null ==> c.parent.WellLinked())
  {
    ParentChain(c);
    ValueAt(chain, n, c, Chain(c.parent));
  }

  /** The walk down the parents that fills the array. */
  method FillFrom(start: NestedContext, objects: array<string>)
    requires start.WellLinked() && objects.Length == |Chain(start)|
    modifies objects
    ensures objects[..] == ValuesOf(Chain(start))
  {
    var num := 0;
    var context: NestedContext? := start;
    ghost var chain := Chain(start);
    ghost var values := ValuesOf(chain);
    ValuesByIndex(chain);
    while context != null
      invariant 0 <= num <= |chain| == |values|
      invariant context != null ==> context.WellLinked()
      invariant Chain(context) == chain[num..]
      invariant forall k :: 0 <= k < num ==> objects[k] == values[k]
      decreases |chain| - num
    {
      StepDown(chain, num, context);
      objects[num] := context.value;
      num := num + 1;
      context := context.parent;
    }
    assert num == |values|;
  }

  /** The async-local slot of one flow. */
  class NestedDiagnosticsContext {
    var top: NestedContext?

    ghost predicate Valid()
      reads this
    {
      top != null ==> top.WellLinked()
    }

    constructor ()
      ensures Valid() && top == null
    {
      top := null;
    }

    method Push(value: string) returns (c: NestedContext)
      requires Valid()
      modifies this
      ensures Valid() && fresh(c) && c.value == value && !c.disposed
      ensures Chain(top) == [c] + old(Chain(top)) && c.frameLevel == |old(Chain(top))| + 1
    {
      c := new NestedContext(top, value);
      top := c;
    }

    method PopObject() returns (value: Option<string>)
      requires Valid()
      modifies this
      ensures Valid()
      ensures old(top) == null ==> top == null && value == None
      ensures old(top) != null ==> Chain(top) == old(Chain(top))[1..] && value == Some(old(top).value)
    {
      value := None;
      if top != null {
        value := Some(top.value);
        top := top.parent;
      }
    }

    method Dispose(c: NestedContext)
      requires Valid()
      modifies this, c
      ensures Valid() && c.disposed
      ensures old(c.disposed) || old(top) == null ==> top == old(top)
      ensures !old(c.disposed) && old(top) != null ==> Chain(top) == old(Chain(top))[1..]
    {
      if c.disposed {
        return;
      }
      c.disposed := true;
      var _ := PopObject();
    }

    /** The array has the top's frame level as its size and is filled exactly. */
    method GetAllObjects() returns (objects: array<string>)
      requires Valid()
      ensures fresh(objects) && objects.Length == |Chain(top)|
      ensures objects[..] == ValuesOf(Chain(top))
      ensures forall k :: 0 <= k < objects.Length ==> objects[k] == Chain(top)[k].value
    {
      ValuesByIndex(Chain(top));
      if top == null {
        objects := new string[0];
      } else {
        objects := new string[top.frameLevel];
        FillFrom(top, objects);
      }
      assert forall k :: 0 <= k < objects.Length ==> objects[k] == objects[..][k];
    }

    /** Bottom to top. */
    method GetAllMessages() returns (messages: seq<string>)
      requires Valid()
      ensures messages == Reverse(ValuesOf(Chain(top)))
      ensures |messages| == |Chain(top)|
      ensures forall k :: 0 <= k < |messages| ==> messages[k] == Chain(top)[|messages| - 1 - k].value
    {
      var objects := GetAllObjects();
      messages := [];
      ghost var all := objects[..];
      var i := 0;
      while i < objects.Length
        invariant 0 <= i <= objects.Length && objects[..] == all
        invariant Reverse(all) == Reverse(all[i..]) + messages
      {
        ReverseMoves(all, i, messages);
        assert objects[i] == all[i];
        messages := [objects[i]] + messages;
        i := i + 1;
      }
      ReverseByIndex(all);
      ValuesByIndex(Chain(top));
    }
  }

  // ----- any run of pushes and disposals -------------------------------------

  /** `Close(k)` disposes the `k`-th pushed context. */
  datatype Op = Open(value: string) | Close(context: nat)

  /** What is pushed so far, which of it is disposed, and the stack, as numbers of contexts, top first. */
  datatype Model = Model(values: seq<string>, disposed: set<nat>, stack: seq<nat>)

  function Step(m: Model, op: Op): Model {
    match op
    case Open(value) => Model(m.values + [value], m.disposed, [|m.values|] + m.stack)
    case Close(k) =>
      if k >= |m.values| || k in m.disposed then m
      else Model(m.values, m.disposed + {k}, if m.stack == [] then [] else m.stack[1..])
  }

  function Run(ops: seq<Op>): Model {
    if ops == [] then Model([], {}, []) else Step(Run(ops[..|ops| - 1]), ops[|ops| - 1])
  }

  /** The stack depth is the number of undisposed contexts, in whatever order they are disposed. */
  lemma {:induction false} DepthCountsUndisposed(ops: seq<Op>)
    ensures var m := Run(ops);
            && |m.stack| == |m.values| - |m.disposed|
            && (forall k :: k in m.disposed ==> k < |m.values|)
            && (forall i :: 0 <= i < |m.stack| ==> m.stack[i] < |m.values|)
            && (forall i, j :: 0 <= i < j < |m.stack| ==> m.stack[i] > m.stack[j])
  {
    if ops == [] {
    } else {
      DepthCountsUndisposed(ops[..|ops| - 1]);
      var m, op := Run(ops[..|ops| - 1]), ops[|ops| - 1];
      if op.Close? && op.context < |m.values| && op.context !in m.disposed {
        RoomLeft(m.disposed + {op.context}, |m.values|);
      }
    }
  }

  lemma {:induction false} RoomLeft(s: set<nat>, n: nat)
    requires forall k :: k in s ==> k < n
    ensures |s| <= n
  {
    if n > 0 {
      RoomLeft(s - {n - 1}, n - 1);
    } else {
      assert s == {};
    }
  }

  /** The stack holds the undisposed contexts and no others. */
  ghost predicate HoldsUndisposed(m: Model) {
    forall k: nat :: k in m.stack <==> k < |m.values| && k !in m.disposed
  }

  /**
   A disposal pops the top, not its own context. From a stack of the undisposed contexts, the
   first disposal of a context leaves such a stack if and only if the context is on top.
   */
  lemma DisposalRemovesItselfIffOnTop(ops: seq<Op>, k: nat)
    requires HoldsUndisposed(Run(ops)) && k < |Run(ops).values| && k !in Run(ops).disposed
    ensures Run(ops).stack != []
    ensures HoldsUndisposed(Step(Run(ops), Close(k))) <==> Run(ops).stack[0] == k
  {
    var m := Run(ops);
    DepthCountsUndisposed(ops);
    assert k in m.stack;
    var m' := Step(m, Close(k));
    assert m.stack == [m.stack[0]] + m.stack[1..];
    if m.stack[0] == k {
      forall x: nat
        ensures x in m'.stack <==> x < |m'.values| && x !in m'.disposed
      {
        assert x in m.stack <==> x < |m.values| && x !in m.disposed;
      }
    } else {
      assert k in m'.stack;
    }
  }

  /** The `n`-th operation, if it disposes a context for the first time, disposes the one on top. */
  ghost predicate DisposesTop(ops: seq<Op>, n: nat)
    requires n < |ops|
  {
    var m := Run(ops[..n]);
    ops[n].Close? && ops[n].context < |m.values| && ops[n].context !in m.disposed
    ==> m.stack != [] && m.stack[0] == ops[n].context
  }

  lemma StepHoldsUndisposedIff(ops: seq<Op>, n: nat)
    requires n < |ops| && HoldsUndisposed(Run(ops[..n]))
    ensures HoldsUndisposed(Run(ops[..n + 1])) <==> DisposesTop(ops, n)
  {
    var m, op := Run(ops[..n]), ops[n];
    assert ops[..n + 1][..n] == ops[..n] && ops[..n + 1][n] == op;
    if op.Open? {
      OpenHoldsUndisposed(ops[..n], op.value);
    } else if op.context < |m.values| && op.context !in m.disposed {
      DisposalRemovesItselfIffOnTop(ops[..n], op.context);
    }
  }

  lemma OpenHoldsUndisposed(ops: seq<Op>, value: string)
    requires HoldsUndisposed(Run(ops))
    ensures HoldsUndisposed(Step(Run(ops), Open(value)))
  {
    var m := Run(ops);
    DepthCountsUndisposed(ops);
    forall k: nat
      ensures k in Step(m, Open(value)).stack <==> k < |m.values| + 1 && k !in m.disposed
    {
      assert k in m.stack <==> k < |m.values| && k !in m.disposed;
    }
  }

  lemma {:induction false} HoldsUndisposedSoFar(ops: seq<Op>, n: nat)
    requires n <= |ops| && forall k :: 0 <= k < n ==> DisposesTop(ops, k)
    ensures HoldsUndisposed(Run(ops[..n]))
  {
    if n == 0 {
      assert ops[..0] == [];
    } else {
      HoldsUndisposedSoFar(ops, n - 1);
      StepHoldsUndisposedIff(ops, n - 1);
    }
  }

  /**
   At every point of a run the stack is the undisposed contexts if and only if each first disposal
   of a context happens while that context is on top.
   */
  lemma UndisposedThroughoutIff(ops: seq<Op>)
    ensures (forall n :: 0 <= n <= |ops| ==> HoldsUndisposed(Run(ops[..n]))) <==>
            (forall n :: 0 <= n < |ops| ==> DisposesTop(ops, n))
  {
    if forall n :: 0 <= n <= |ops| ==> HoldsUndisposed(Run(ops[..n])) {
      forall n | 0 <= n < |ops|
        ensures DisposesTop(ops, n)
      {
        assert HoldsUndisposed(Run(ops[..n])) && HoldsUndisposed(Run(ops[..n + 1]));
        StepHoldsUndisposedIff(ops, n);
      }
    }
    if forall n :: 0 <= n < |ops| ==> DisposesTop(ops, n) {
      forall n | 0 <= n <= |ops|
        ensures HoldsUndisposed(Run(ops[..n]))
      {
        HoldsUndisposedSoFar(ops, n);
      }
    }
  }

  /** Disposing the outer context first leaves it on the stack in place of the inner one. */
  lemma OuterFirstLeavesTheOuterOne()
    ensures Run([Open("outer"), Open("inner"), Close(0)]).stack == [0]
  {
    var ops := [Open("outer"), Open("inner"), Close(0)];
    assert ops[..2] == [Open("outer"), Open("inner")] && ops[..2][..1] == [Open("outer")] && ops[..2][..1][..0] == [];
    assert Run(ops[..2][..1]) == Model(["outer"], {}, [0]);
    assert Run(ops[..2]) == Model(["outer", "inner"], {}, [1, 0]);
  }

  // ----- the objects follow the model ----------------------------------------

  ghost predicate Follows(context: NestedDiagnosticsContext, pushed: seq<NestedContext>, m: Model)
    reads context, pushed
  {
    var chain := Chain(context.top);
    && |pushed| == |m.values|
    && (forall k :: 0 <= k < |pushed| ==> pushed[k].value == m.values[k] && (pushed[k].disposed <==> k in m.disposed))
    && (forall j, k :: 0 <= j < k < |pushed| ==> pushed[j] != pushed[k])
    && |chain| == |m.stack|
    && (forall i :: 0 <= i < |chain| ==> m.stack[i] < |pushed| && chain[i] == pushed[m.stack[i]])
  }

  method Do(context: NestedDiagnosticsContext, pushed: seq<NestedContext>, ghost m: Model, op: Op)
    returns (pushed': seq<NestedContext>)
    requires context.Valid() && Follows(context, pushed, m)
    requires forall k :: k in m.disposed ==> k < |m.values|
    modifies context, pushed
    ensures context.Valid() && Follows(context, pushed', Step(m, op))
    ensures pushed <= pushed' && forall k :: |pushed| <= k < |pushed'| ==> fresh(pushed'[k])
  {
    pushed' := pushed;
    if op.Open? {
      var c := context.Push(op.value);
      pushed' := pushed + [c];
    } else if op.context < |pushed| {
      context.Dispose(pushed[op.context]);
    }
  }

  lemma RunOneMore(ops: seq<Op>, i: nat)
    requires i < |ops|
    ensures Run(ops[..i + 1]) == Step(Run(ops[..i]), ops[i])
  {
    assert ops[..i + 1][..i] == ops[..i];
  }

  lemma DisposedWerePushed(ops: seq<Op>)
    ensures forall k :: k in Run(ops).disposed ==> k < |Run(ops).values|
    ensures |Run(ops).stack| == |Run(ops).values| - |Run(ops).disposed|
  {
    DepthCountsUndisposed(ops);
  }

  /**
   After any run of pushes and disposals in any order, the depth is the number of undisposed
   contexts and the top's frame level is that depth.
   */
  method Execute(context: NestedDiagnosticsContext, ops: seq<Op>) returns (pushed: seq<NestedContext>)
    requires context.Valid() && context.top == null
    modifies context
    ensures context.Valid() && Follows(context, pushed, Run(ops))
    ensures |Chain(context.top)| == |Run(ops).values| - |Run(ops).disposed|
    ensures context.top != null ==> context.top.frameLevel == |Chain(context.top)|
  {
    pushed := [];
    var i := 0;
    while i < |ops|
      invariant 0 <= i <= |ops|
      invariant context.Valid() && Follows(context, pushed, Run(ops[..i]))
      invariant forall k :: 0 <= k < |pushed| ==> fresh(pushed[k])
    {
      RunOneMore(ops, i);
      DisposedWerePushed(ops[..i]);
      pushed := Do(context, pushed, Run(ops[..i]), ops[i]);
      i := i + 1;
    }
    assert ops[..i] == ops;
    DisposedWerePushed(ops);
  }
}
