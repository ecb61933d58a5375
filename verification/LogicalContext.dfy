/**
 The mapped diagnostics context: one dictionary per logical flow, held by reference in an
 async-local slot that a forked flow inherits, cloned before every write.
 */
module LogicalContext {
  import opened Wrappers

  type Flow = nat
  type Items = map<string, string>

  /** A dictionary object; flows may share one. */
  class Dictionary {
    var items: Items

    constructor (items: Items)
      ensures this.items == items
    {
      this.items := items;
    }
  }

  class MappedDiagnosticsContext {
    /** The async-local slot as each flow sees it; a flow without an entry sees null. */
    var slots: map<Flow, Dictionary>
    const emptyDefault: Dictionary

    ghost predicate Valid()
      reads this, emptyDefault
    {
      emptyDefault.items == map[]
    }

    /** What a flow sees. */
    ghost function View(flow: Flow): Items
      reads this, slots.Values
    {
      if flow in slots then slots[flow].items else map[]
    }

    /** What all flows see that have a dictionary. */
    ghost function Views(): map<Flow, Items>
      reads this, slots.Values
    {
      map f | f in slots :: slots[f].items
    }

    constructor ()
      ensures Valid() && Views() == map[] && forall f: Flow :: View(f) == map[]
    {
      slots := map[];
      emptyDefault := new Dictionary(map[]);
    }

    /** With `clone` the flow gets a dictionary of its own, which nobody else has seen. */
    method GetLogicalThreadDictionary(flow: Flow, clone: bool) returns (d: Dictionary)
      requires Valid()
      modifies this
      ensures Valid() && d.items == old(View(flow))
      ensures forall f: Flow :: View(f) == old(View(f))
      ensures if clone then fresh(d) && slots == old(slots)[flow := d] else slots == old(slots)
    {
      if flow !in slots {
        if !clone {
          return emptyDefault;
        }
        d := new Dictionary(map[]);
        slots := slots[flow := d];
      } else if clone {
        d := new Dictionary(slots[flow].items);
        slots := slots[flow := d];
      } else {
        d := slots[flow];
      }
    }

    /** A read leaves even the slots alone. */
    method GetObject(flow: Flow, item: string) returns (value: Option<string>)
      requires Valid()
      modifies this
      ensures Valid() && slots == old(slots)
      ensures value == if item in View(flow) then Some(View(flow)[item]) else None
    {
      var d := GetLogicalThreadDictionary(flow, false);
      value := if item in d.items then Some(d.items[item]) else None;
    }

    /** Every write changes the view of its own flow only, and no dictionary that existed before. */
    method Set(flow: Flow, item: string, value: string)
      requires Valid()
      modifies this
      ensures Valid() && View(flow) == old(View(flow))[item := value]
      ensures forall f: Flow :: f != flow ==> View(f) == old(View(f))
      ensures forall d: Dictionary | old(allocated(d)) :: d.items == old(d.items)
    {
      var d := GetLogicalThreadDictionary(flow, true);
      d.items := d.items[item := value];
    }

    method Remove(flow: Flow, item: string)
      requires Valid()
      modifies this
      ensures Valid() && View(flow) == old(View(flow)) - {item}
      ensures forall f: Flow :: f != flow ==> View(f) == old(View(f))
      ensures forall d: Dictionary | old(allocated(d)) :: d.items == old(d.items)
    {
      var d := GetLogicalThreadDictionary(flow, true);
      d.items := d.items - {item};
    }

    method Clear(flow: Flow, free: bool)
      requires Valid()
      modifies this
      ensures Valid() && View(flow) == map[]
      ensures free ==> flow !in slots
      ensures forall f: Flow :: f != flow ==> View(f) == old(View(f))
      ensures forall d: Dictionary | old(allocated(d)) :: d.items == old(d.items)
    {
      if free {
        slots := slots - {flow};
      } else {
        var d := GetLogicalThreadDictionary(flow, true);
        d.items := map[];
      }
    }

    method SetScoped(flow: Flow, item: string, value: string) returns (remover: ItemRemover)
      requires Valid()
      modifies this
      ensures Valid() && View(flow) == old(View(flow))[item := value]
      ensures forall f: Flow :: f != flow ==> View(f) == old(View(f))
      ensures forall d: Dictionary | old(allocated(d)) :: d.items == old(d.items)
      ensures fresh(remover) && remover.item == item && !remover.disposed
    {
      Set(flow, item, value);
      remover := new ItemRemover(item);
    }

    /** A forked flow starts with the very dictionary object of its parent. */
    method Fork(parent: Flow, child: Flow)
      requires Valid()
      modifies this
      ensures Valid() && View(child) == old(View(parent))
      ensures parent in old(slots) ==> child in slots && slots[child] == old(slots)[parent]
      ensures forall f: Flow :: f != child ==> View(f) == old(View(f))
    {
      if parent in slots {
        slots := slots[child := slots[parent]];
      } else {
        slots := slots - {child};
      }
    }
  }

  class ItemRemover {
    const item: string
    var disposed: bool

    constructor (item: string)
      ensures this.item == item && !disposed
    {
      this.item, disposed := item, false;
    }

    /** Only the first disposal removes the item, from the flow that disposes. */
    method Dispose(context: MappedDiagnosticsContext, flow: Flow)
      requires context.Valid()
      modifies this, context
      ensures context.Valid() && disposed
      ensures context.View(flow) == if old(disposed) then old(context.View(flow)) else old(context.View(flow)) - {item}
      ensures forall f: Flow :: f != flow ==> context.View(f) == old(context.View(f))
      ensures forall d: Dictionary | old(allocated(d)) :: d.items == old(d.items)
    {
      var was := disposed;
      disposed := true;
      if was {
        return;
      }
      context.Remove(flow, item);
    }
  }

  // ----- any interleaving over any tree of flows -----------------------------

  datatype Op =
    | SetOp(flow: Flow, item: string, value: string)
    | RemoveOp(flow: Flow, item: string)
    | ClearOp(flow: Flow, free: bool)
    | SetScopedOp(flow: Flow, item: string, value: string)
    | DisposeOp(flow: Flow, remover: nat)
    | ForkOp(parent: Flow, flow: Flow)

  /** The items of the removers, in the order `SetScoped` made them. */
  function RemoverItems(ops: seq<Op>): seq<string> {
    if ops == [] then []
    else RemoverItems(ops[..|ops| - 1]) + (if ops[|ops| - 1].SetScopedOp? then [ops[|ops| - 1].item] else [])
  }

  /** The remover has been disposed by some flow, after it was made. */
  function Disposed(ops: seq<Op>, remover: nat): bool {
    ops != [] &&
    (Disposed(ops[..|ops| - 1], remover) ||
     (ops[|ops| - 1].DisposeOp? && ops[|ops| - 1].remover == remover < |RemoverItems(ops[..|ops| - 1])|))
  }

  /**
   The purely functional account of one flow: what its own operations, and those of its
   ancestors before the fork, make of what it saw at the start. Nothing other flows do appears
   here, except that a remover works once.
   */
  function Lineage(start: map<Flow, Items>, ops: seq<Op>, flow: Flow): Items
    decreases |ops|
  {
    if ops == [] then if flow in start then start[flow] else map[]
    else
      var front, op := ops[..|ops| - 1], ops[|ops| - 1];
      if op.flow != flow then Lineage(start, front, flow)
      else
        match op
        case SetOp(_, item, value) => Lineage(start, front, flow)[item := value]
        case SetScopedOp(_, item, value) => Lineage(start, front, flow)[item := value]
        case RemoveOp(_, item) => Lineage(start, front, flow) - {item}
        case ClearOp(_, _) => map[]
        case DisposeOp(_, remover) =>
          if remover < |RemoverItems(front)| && !Disposed(front, remover)
          then Lineage(start, front, flow) - {RemoverItems(front)[remover]} else Lineage(start, front, flow)
        case ForkOp(parent, _) => Lineage(start, front, parent)
  }

  /** The removers made so far agree with the operations done. */
  ghost predicate RemoversMatch(removers: seq<ItemRemover>, ops: seq<Op>)
    reads removers
  {
    && |removers| == |RemoverItems(ops)|
    && (forall i, j :: 0 <= i < j < |removers| ==> removers[i] != removers[j])
    && (forall i :: 0 <= i < |removers| ==>
          removers[i].item == RemoverItems(ops)[i] && (removers[i].disposed <==> Disposed(ops, i)))
  }

  lemma {:induction false} NotYetDisposed(ops: seq<Op>, remover: nat)
    requires remover >= |RemoverItems(ops)|
    ensures !Disposed(ops, remover)
  {
    if ops == [] {
    } else {
      NotYetDisposed(ops[..|ops| - 1], remover);
    }
  }

  /** One operation on the shared heap. */
  method Do(context: MappedDiagnosticsContext, ghost start: map<Flow, Items>, ghost before: seq<Op>, op: Op,
            removers: seq<ItemRemover>)
    returns (removers': seq<ItemRemover>)
    requires context.Valid() && RemoversMatch(removers, before)
    requires forall f: Flow :: context.View(f) == Lineage(start, before, f)
    modifies context, removers
    ensures context.Valid() && RemoversMatch(removers', before + [op])
    ensures forall f: Flow :: context.View(f) == Lineage(start, before + [op], f)
    ensures removers' == removers || (exists r :: fresh(r) && removers' == removers + [r])
    ensures forall d: Dictionary | old(allocated(d)) :: d.items == old(d.items)
  {
    assert (before + [op])[..|before|] == before;
    NotYetDisposed(before, |removers|);
    removers' := removers;
    match op {
      case SetOp(flow, item, value) => context.Set(flow, item, value);
      case RemoveOp(flow, item) => context.Remove(flow, item);
      case ClearOp(flow, free) => context.Clear(flow, free);
      case SetScopedOp(flow, item, value) =>
        var remover := context.SetScoped(flow, item, value);
        removers' := removers + [remover];
      case DisposeOp(flow, r) =>
        if r < |removers| {
          removers[r].Dispose(context, flow);
        }
      case ForkOp(parent, flow) => context.Fork(parent, flow);
    }
  }

  /**
   Copy-on-write isolation. Whatever the flows share at the start, after any interleaving of
   writes, scoped disposals and forks over any tree of flows, every flow sees what the functional
   account of that flow alone says, although the dictionaries are shared by reference; and no
   dictionary that existed before, those the flows started with among them, is changed.
   */
  method Execute(context: MappedDiagnosticsContext, ops: seq<Op>) returns (removers: seq<ItemRemover>)
    requires context.Valid()
    modifies context
    ensures context.Valid() && RemoversMatch(removers, ops)
    ensures forall f: Flow :: context.View(f) == Lineage(old(context.Views()), ops, f)
    ensures forall d: Dictionary | old(allocated(d)) :: d.items == old(d.items)
  {
    removers := [];
    ghost var start := context.Views();
    var i := 0;
    while i < |ops|
      invariant 0 <= i <= |ops|
      invariant context.Valid() && RemoversMatch(removers, ops[..i])
      invariant forall k :: 0 <= k < |removers| ==> fresh(removers[k])
      invariant forall f: Flow :: context.View(f) == Lineage(start, ops[..i], f)
      invariant forall d: Dictionary | old(allocated(d)) :: d.items == old(d.items)
    {
      assert ops[..i + 1] == ops[..i] + [ops[i]];
      removers := Do(context, start, ops[..i], ops[i], removers);
      i := i + 1;
    }
    assert ops[..i] == ops;
  }

  /** `op` is not an operation of `flow`. */
  ghost predicate OfOthers(op: Op, flow: Flow) {
    op.flow != flow
  }

  /** Operations of other flows, forks from this one included, never change what a flow sees. */
  lemma {:induction false} OthersAreInvisible(start: map<Flow, Items>, ops: seq<Op>, others: seq<Op>, flow: Flow)
    requires forall i :: 0 <= i < |others| ==> OfOthers(others[i], flow)
    ensures Lineage(start, ops + others, flow) == Lineage(start, ops, flow)
  {
    if others == [] {
      assert ops + others == ops;
    } else {
      var all := ops + others;
      assert all[..|all| - 1] == ops + others[..|others| - 1];
      assert OfOthers(others[|others| - 1], flow);
      OthersAreInvisible(start, ops, others[..|others| - 1], flow);
    }
  }

  /** A forked flow sees at first what its parent sees, and keeps it whatever the parent does then. */
  lemma ForkSeesTheParentsPast(start: map<Flow, Items>, ops: seq<Op>, parent: Flow, child: Flow, later: seq<Op>)
    requires parent != child && forall i :: 0 <= i < |later| ==> OfOthers(later[i], child)
    ensures Lineage(start, ops + [ForkOp(parent, child)] + later, child) == Lineage(start, ops, parent)
  {
    var forked := ops + [ForkOp(parent, child)];
    OthersAreInvisible(start, forked, later, child);
    assert forked[..|ops|] == ops;
  }
}
