/**
 Method interception: collecting the interceptor attributes of an invocation, and the chains of
 closures that the loops over them build, for the four kinds of methods and both containers.
 */
module Interception {
  import opened Wrappers

  /** An interceptor attribute, compared by its fields; a larger order is to run earlier. */
  datatype Attribute = Attribute(name: string, order: int)

  // ----- collecting the attributes -------------------------------------------

  /** `Union` keeps the first of equal attributes. */
  function Distinct(s: seq<Attribute>): seq<Attribute> {
    if s == [] then []
    else
      var front, last := Distinct(s[..|s| - 1]), s[|s| - 1];
      if last in front then front else front + [last]
  }

  /** Insertion behind all attributes of the same or a smaller order. */
  function Insert(sorted: seq<Attribute>, a: Attribute): seq<Attribute> {
    if sorted == [] || sorted[|sorted| - 1].order <= a.order then sorted + [a]
    else Insert(sorted[..|sorted| - 1], a) + [sorted[|sorted| - 1]]
  }

  /** `OrderBy(i => i.Order)`, which is stable. */
  function OrderByOrder(s: seq<Attribute>): seq<Attribute> {
    if s == [] then [] else Insert(OrderByOrder(s[..|s| - 1]), s[|s| - 1])
  }

  /** Autofac takes the attributes of the method, its type, the target method and the target's type. */
  function AutofacAttributes(ofMethod: seq<Attribute>, ofType: seq<Attribute>,
                             ofTarget: seq<Attribute>, ofTargetType: seq<Attribute>): seq<Attribute> {
    OrderByOrder(Distinct(ofMethod + ofType + ofTarget + ofTargetType))
  }

  /** Unity takes those of the method and its type. */
  function UnityAttributes(ofMethod: seq<Attribute>, ofType: seq<Attribute>): seq<Attribute> {
    OrderByOrder(Distinct(ofMethod + ofType))
  }

  ghost predicate Sorted(s: seq<Attribute>) {
    forall i, j :: 0 <= i < j < |s| ==> s[i].order <= s[j].order
  }

  /** The attributes of one order, in sequence. */
  function OfOrder(s: seq<Attribute>, order: int): seq<Attribute> {
    if s == [] then []
    else OfOrder(s[..|s| - 1], order) + (if s[|s| - 1].order == order then [s[|s| - 1]] else [])
  }

  lemma {:induction false} InsertPermutes(s: seq<Attribute>, a: Attribute)
    ensures multiset(Insert(s, a)) == multiset(s) + multiset{a}
    ensures forall x :: x in Insert(s, a) ==> x in s || x == a
  {
    if s == [] || s[|s| - 1].order <= a.order {
    } else {
      InsertPermutes(s[..|s| - 1], a);
      assert s == s[..|s| - 1] + [s[|s| - 1]];
    }
  }

  lemma {:induction false} InsertSorts(s: seq<Attribute>, a: Attribute)
    requires Sorted(s)
    ensures Sorted(Insert(s, a))
  {
    if s == [] || s[|s| - 1].order <= a.order {
    } else {
      var front := s[..|s| - 1];
      InsertSorts(front, a);
      InsertPermutes(front, a);
      assert forall i :: 0 <= i < |Insert(front, a)| ==> Insert(front, a)[i] in Insert(front, a);
    }
  }

  lemma {:induction false} InsertIsStable(s: seq<Attribute>, a: Attribute, order: int)
    requires Sorted(s)
    ensures OfOrder(Insert(s, a), order) == OfOrder(s, order) + (if a.order == order then [a] else [])
  {
    if s == [] || s[|s| - 1].order <= a.order {
      assert (s + [a])[..|s|] == s;
    } else {
      InsertIsStable(s[..|s| - 1], a, order);
      var inserted := Insert(s[..|s| - 1], a);
      assert (inserted + [s[|s| - 1]])[..|inserted|] == inserted;
    }
  }

  /** Ordering is a permutation, so it keeps the members. */
  lemma {:induction false} OrderByPermutes(s: seq<Attribute>)
    ensures multiset(OrderByOrder(s)) == multiset(s)
  {
    if s == [] {
    } else {
      OrderByPermutes(s[..|s| - 1]);
      InsertPermutes(OrderByOrder(s[..|s| - 1]), s[|s| - 1]);
      assert s == s[..|s| - 1] + [s[|s| - 1]];
    }
  }

  lemma SameMembers(s: seq<Attribute>, t: seq<Attribute>, a: Attribute)
    requires multiset(s) == multiset(t)
    ensures a in s <==> a in t
  {
    assert a in s <==> a in multiset(s);
    assert a in t <==> a in multiset(t);
  }

  /** The collected attributes are sorted by order, and those of equal order keep their sequence. */
  lemma {:induction false} OrderByIsAStableSort(s: seq<Attribute>, order: int)
    ensures Sorted(OrderByOrder(s))
    ensures OfOrder(OrderByOrder(s), order) == OfOrder(s, order)
  {
    if s == [] {
    } else {
      OrderByIsAStableSort(s[..|s| - 1], order);
      InsertSorts(OrderByOrder(s[..|s| - 1]), s[|s| - 1]);
      InsertIsStable(OrderByOrder(s[..|s| - 1]), s[|s| - 1], order);
    }
  }

  lemma {:induction false} DistinctKeepsEachOnce(s: seq<Attribute>)
    ensures forall a :: a in Distinct(s) <==> a in s
    ensures forall i, j :: 0 <= i < j < |Distinct(s)| ==> Distinct(s)[i] != Distinct(s)[j]
  {
    if s == [] {
    } else {
      DistinctKeepsEachOnce(s[..|s| - 1]);
      assert s == s[..|s| - 1] + [s[|s| - 1]];
    }
  }

  /** The last of the ordered attributes has the highest order of all that were collected. */
  lemma CollectedAttributes(collected: seq<Attribute>)
    ensures var attributes := OrderByOrder(Distinct(collected));
            && (forall a :: a in collected <==> a in attributes)
            && (collected != [] ==> attributes != []
                                    && forall a :: a in collected ==> a.order <= attributes[|attributes| - 1].order)
  {
    DistinctKeepsEachOnce(collected);
    OrderByIsAStableSort(Distinct(collected), 0);
    OrderByPermutes(Distinct(collected));
    forall a
      ensures a in collected <==> a in OrderByOrder(Distinct(collected))
    {
      SameMembers(Distinct(collected), OrderByOrder(Distinct(collected)), a);
    }
    if collected != [] {
      assert collected[0] in OrderByOrder(Distinct(collected));
    }
  }

  lemma {:induction false} RepeatsAddNothing(s: seq<Attribute>, again: seq<Attribute>)
    requires forall a :: a in again ==> a in s
    ensures Distinct(s + again) == Distinct(s)
  {
    if again == [] {
      assert s + again == s;
    } else {
      var front, last := again[..|again| - 1], again[|again| - 1];
      RepeatsAddNothing(s, front);
      assert (s + again)[..|s + again| - 1] == s + front && (s + again)[|s + again| - 1] == last;
      DistinctKeepsEachOnce(s);
      assert last in again;
    }
  }

  /** When the target method and its type bring no attributes of their own, both containers collect the same list. */
  lemma ContainersCollectAlike(ofMethod: seq<Attribute>, ofType: seq<Attribute>,
                               ofTarget: seq<Attribute>, ofTargetType: seq<Attribute>)
    requires forall a :: a in ofTarget + ofTargetType ==> a in ofMethod + ofType
    ensures AutofacAttributes(ofMethod, ofType, ofTarget, ofTargetType) == UnityAttributes(ofMethod, ofType)
  {
    assert ofMethod + ofType + ofTarget + ofTargetType == (ofMethod + ofType) + (ofTarget + ofTargetType);
    RepeatsAddNothing(ofMethod + ofType, ofTarget + ofTargetType);
  }

  /** The position of an attribute's first occurrence. */
  function FirstAt(s: seq<Attribute>, a: Attribute): nat {
    if s == [] || s[0] == a then 0 else 1 + FirstAt(s[1..], a)
  }

  ghost predicate Before(collected: seq<Attribute>, a: Attribute, b: Attribute) {
    a.order < b.order || (a.order == b.order && FirstAt(collected, a) < FirstAt(collected, b))
  }

  /** `list` holds the collected attributes once each: by ascending order, and by first occurrence within one order. */
  ghost predicate CollectedInOrder(list: seq<Attribute>, collected: seq<Attribute>) {
    && (forall a :: a in list <==> a in collected)
    && (forall i, j :: 0 <= i < j < |list| ==> Before(collected, list[i], list[j]))
  }

  lemma {:induction false} FirstAtConcat(s: seq<Attribute>, t: seq<Attribute>, a: Attribute)
    ensures a in s ==> FirstAt(s + t, a) == FirstAt(s, a) < |s|
    ensures a !in s ==> FirstAt(s + t, a) == |s| + FirstAt(t, a)
  {
    if s == [] {
      assert s + t == t;
    } else {
      assert (s + t)[1..] == s[1..] + t;
      FirstAtConcat(s[1..], t, a);
    }
  }

  /** `Union` keeps first occurrences, in their sequence. */
  lemma {:induction false} DistinctBySequence(s: seq<Attribute>)
    ensures forall a :: a in Distinct(s) <==> a in s
    ensures forall i, j :: 0 <= i < j < |Distinct(s)| ==> FirstAt(s, Distinct(s)[i]) < FirstAt(s, Distinct(s)[j])
  {
    if s == [] {
    } else {
      var front, last := s[..|s| - 1], s[|s| - 1];
      DistinctBySequence(front);
      DistinctKeepsEachOnce(s);
      assert s == front + [last];
      forall a | a in Distinct(s)
        ensures FirstAt(s, a) == if a in front then FirstAt(front, a) else |front|
        ensures a in front ==> FirstAt(front, a) < |front|
      {
        FirstAtConcat(front, [last], a);
      }
      assert forall i :: 0 <= i < |Distinct(s)| ==> Distinct(s)[i] in Distinct(s);
    }
  }

  /** Insertion behind equal orders keeps a list in order, when the new attribute occurs last. */
  lemma {:induction false} InsertInOrder(list: seq<Attribute>, a: Attribute, s: seq<Attribute>)
    requires forall i, j :: 0 <= i < j < |list| ==> Before(s, list[i], list[j])
    requires forall x :: x in list ==> FirstAt(s, x) < FirstAt(s, a)
    ensures forall i, j :: 0 <= i < j < |Insert(list, a)| ==> Before(s, Insert(list, a)[i], Insert(list, a)[j])
  {
    assert forall i :: 0 <= i < |list| ==> list[i] in list;
    if list == [] || list[|list| - 1].order <= a.order {
    } else {
      var front := list[..|list| - 1];
      InsertInOrder(front, a, s);
      InsertPermutes(front, a);
      var inserted := Insert(front, a);
      var last := list[|list| - 1];
      forall i | 0 <= i < |inserted|
        ensures Before(s, inserted[i], last)
      {
        assert inserted[i] in inserted;
      }
    }
  }

  /** Ordering what is in sequence. */
  lemma {:induction false} OrderByInOrder(d: seq<Attribute>, s: seq<Attribute>)
    requires forall i, j :: 0 <= i < j < |d| ==> FirstAt(s, d[i]) < FirstAt(s, d[j])
    ensures forall i, j :: 0 <= i < j < |OrderByOrder(d)| ==> Before(s, OrderByOrder(d)[i], OrderByOrder(d)[j])
  {
    if d == [] {
    } else {
      var front, last := d[..|d| - 1], d[|d| - 1];
      OrderByInOrder(front, s);
      OrderByPermutes(front);
      forall x | x in OrderByOrder(front)
        ensures FirstAt(s, x) < FirstAt(s, last)
      {
        SameMembers(OrderByOrder(front), front, x);
        var i :| 0 <= i < |front| && front[i] == x;
        assert d[i] == x;
      }
      InsertInOrder(OrderByOrder(front), last, s);
    }
  }

  lemma OrderedDistinctIsCollected(s: seq<Attribute>)
    ensures CollectedInOrder(OrderByOrder(Distinct(s)), s)
  {
    CollectedAttributes(s);
    DistinctBySequence(s);
    OrderByInOrder(Distinct(s), s);
  }

  /**
   What Autofac collects: the attributes of the method, its type, the target method and the target's
   type, each once, by ascending order, and within one order in that sequence.
   */
  lemma AutofacCollects(ofMethod: seq<Attribute>, ofType: seq<Attribute>, ofTarget: seq<Attribute>, ofTargetType: seq<Attribute>)
    ensures var list := AutofacAttributes(ofMethod, ofType, ofTarget, ofTargetType);
            && CollectedInOrder(list, ofMethod + ofType + ofTarget + ofTargetType)
            && (forall a :: a in list <==> a in ofMethod || a in ofType || a in ofTarget || a in ofTargetType)
            && (forall i, j :: 0 <= i < j < |list| ==> list[i] != list[j])
  {
    OrderedDistinctIsCollected(ofMethod + ofType + ofTarget + ofTargetType);
  }

  /** What Unity collects: the attributes of the method and of its type, likewise. */
  lemma UnityCollects(ofMethod: seq<Attribute>, ofType: seq<Attribute>)
    ensures var list := UnityAttributes(ofMethod, ofType);
            && CollectedInOrder(list, ofMethod + ofType)
            && (forall a :: a in list <==> a in ofMethod || a in ofType)
            && (forall i, j :: 0 <= i < j < |list| ==> list[i] != list[j])
  {
    OrderedDistinctIsCollected(ofMethod + ofType);
  }

  // ----- an invocation -------------------------------------------------------

  datatype Event = Enter(name: string) | Leave(name: string) | Target

  /** What running code leaves behind: a trace, and how often the target ran. */
  datatype World = World(trace: seq<Event>, runs: nat)

  type Value = string

  /** A task, which is its result once it is awaited. */
  datatype Task<T> = Completed(result: T)

  /** What a call gives back, as an object. */
  datatype Object = Null | Boxed(value: Value) | TaskObject(task: Task<()>) | TaskOfObject(taskOf: Task<Value>)

  /** Unity's `IMethodReturn`. */
  datatype MethodReturn = MethodReturn(returnValue: Object)

  /**
   What the closures of one invocation act on: the world, the `ReturnValue` of Autofac's
   invocation, and the local that Unity's form for void methods captures.
   */
  datatype State = State(world: World, returnValue: Object, captured: Option<MethodReturn>)

  type Func<!R> = State -> (State, R)

  type Action = State -> State

  /** The intercepted method; its return type decides which form runs. */
  datatype Method =
    | VoidMethod(call: World -> World)
    | ValueMethod(compute: World -> (World, Value))
    | TaskMethod(start: World -> (World, Task<()>))
    | TaskOfValueMethod(startOf: World -> (World, Task<Value>))

  /** A plain call of the method. */
  function Call(m: Method, w: World): (World, Object) {
    match m
    case VoidMethod(call) => (call(w), Null)
    case ValueMethod(compute) => (compute(w).0, Boxed(compute(w).1))
    case TaskMethod(start) => (start(w).0, TaskObject(start(w).1))
    case TaskOfValueMethod(startOf) => (startOf(w).0, TaskOfObject(startOf(w).1))
  }

  /** The four overloads of an interceptor, each making a function of its own type out of one. */
  datatype Overloads = Overloads(
    process: Attribute -> Func<Object> -> Func<Object>,
    processVoid: Attribute -> Action -> Action,
    processAsync: Attribute -> Func<Task<()>> -> Func<Task<()>>,
    processAsyncOf: Attribute -> Func<Task<Value>> -> Func<Task<Value>>)

  /** The recursive onion: the last attribute of the list is the outermost layer. */
  ghost function Onion<F>(attributes: seq<Attribute>, behave: Attribute -> F -> F, target: F): F {
    if attributes == [] then target
    else behave(attributes[|attributes| - 1])(Onion(attributes[..|attributes| - 1], behave, target))
  }

  /** One more turn of a loop wraps the onion built so far. */
  lemma OneMoreLayer<F>(attributes: seq<Attribute>, i: nat, behave: Attribute -> F -> F, target: F)
    requires i < |attributes|
    ensures Onion(attributes[..i + 1], behave, target) == behave(attributes[i])(Onion(attributes[..i], behave, target))
  {
    assert attributes[..i + 1][..i] == attributes[..i];
  }

  // ----- Autofac -------------------------------------------------------------

  /** `Proceed` runs the method and keeps what it returned. */
  function Proceeded(m: Method, s: State): State {
    s.(world := Call(m, s.world).0, returnValue := Call(m, s.world).1)
  }

  /** `Process` as an action: what the return value is read for is dropped. */
  function Proceed(m: Method): Action {
    (s: State) => Proceeded(m, s)
  }

  /** `Process`: proceed, then read the return value. */
  function Process(m: Method): Func<Object> {
    (s: State) => (Proceeded(m, s), Proceeded(m, s).returnValue)
  }

  /** `InvokeTargetMethod`: a target that is the proxy proceeds, any other is invoked directly. */
  function InvokeTargetMethod<T>(start: World -> (World, Task<T>), box: Task<T> -> Object,
                                 isProxy: bool): Func<Task<T>> {
    (s: State) =>
      var (w, task) := start(s.world);
      (if isProxy then s.(world := w, returnValue := box(task)) else s.(world := w), task)
  }

  /** The state an invocation starts in, and what its caller sees when it is over. */
  function Begin(w: World): State {
    State(w, Null, None)
  }

  ghost function AutofacOutcome(m: Method, isProxy: bool, attributes: seq<Attribute>, o: Overloads, w: World): (World,
                                Object) {
    match m
    case VoidMethod(_) =>
      var s := Onion(attributes, o.processVoid, Proceed(m))(Begin(w));
      (s.world, s.returnValue)
    case ValueMethod(_) =>
      var (s, value) := Onion(attributes, o.process, Process(m))(Begin(w));
      (s.world, value)
    case TaskMethod(start) =>
      var (s, task) := Onion(attributes, o.processAsync, InvokeTargetMethod(start, TaskAsObject, isProxy))(Begin(w));
      (s.world, TaskObject(task))
    case TaskOfValueMethod(startOf) =>
      var (s, task) := Onion(attributes, o.processAsyncOf, InvokeTargetMethod(startOf, TaskOfAsObject, isProxy))(Begin(w));
      (s.world, TaskOfObject(task))
  }

  function TaskAsObject(task: Task<()>): Object { TaskObject(task) }

  function TaskOfAsObject(task: Task<Value>): Object { TaskOfObject(task) }

  /** `InterceptAsync` for methods that return a plain task. */
  method AutofacInterceptAsync(start: World -> (World, Task<()>), isProxy: bool, attributes: seq<Attribute>,
                               o: Overloads, s: State)
    returns (s': State)
    ensures (s'.world, s'.returnValue) ==
            var (after, task) := Onion(attributes, o.processAsync, InvokeTargetMethod(start, TaskAsObject, isProxy))(s);
            (after.world, TaskObject(task))
  {
    var processAsyncFunc := InvokeTargetMethod(start, TaskAsObject, isProxy);
    ghost var target := processAsyncFunc;
    for i := 0 to |attributes|
      invariant processAsyncFunc == Onion(attributes[..i], o.processAsync, target)
    {
      OneMoreLayer(attributes, i, o.processAsync, target);
      processAsyncFunc := o.processAsync(attributes[i])(processAsyncFunc);
    }
    assert attributes[..|attributes|] == attributes;
    var (after, task) := processAsyncFunc(s);
    return after.(returnValue := TaskObject(task));
  }

  /** `InterceptAsync` for methods that return a task with a result. */
  method AutofacInterceptAsyncOf(startOf: World -> (World, Task<Value>), isProxy: bool, attributes: seq<Attribute>,
                                 o: Overloads, s: State)
    returns (s': State)
    ensures (s'.world, s'.returnValue) ==
            var (after, task) := Onion(attributes, o.processAsyncOf, InvokeTargetMethod(startOf, TaskOfAsObject, isProxy))(s);
            (after.world, TaskOfObject(task))
  {
    var processAsyncFunc := InvokeTargetMethod(startOf, TaskOfAsObject, isProxy);
    ghost var target := processAsyncFunc;
    for i := 0 to |attributes|
      invariant processAsyncFunc == Onion(attributes[..i], o.processAsyncOf, target)
    {
      OneMoreLayer(attributes, i, o.processAsyncOf, target);
      processAsyncFunc := o.processAsyncOf(attributes[i])(processAsyncFunc);
    }
    assert attributes[..|attributes|] == attributes;
    var (after, task) := processAsyncFunc(s);
    return after.(returnValue := TaskOfObject(task));
  }

  /** `Intercept` of a method that returns a value. */
  method AutofacInterceptValue(m: Method, attributes: seq<Attribute>, o: Overloads, s: State) returns (s': State)
    ensures (s'.world, s'.returnValue) ==
            var (after, value) := Onion(attributes, o.process, Process(m))(s);
            (after.world, value)
  {
    var processFunc := Process(m);
    for i := 0 to |attributes|
      invariant processFunc == Onion(attributes[..i], o.process, Process(m))
    {
      OneMoreLayer(attributes, i, o.process, Process(m));
      processFunc := o.process(attributes[i])(processFunc);
    }
    assert attributes[..|attributes|] == attributes;
    var (after, value) := processFunc(s);
    return after.(returnValue := value);
  }

  /** `Intercept` of a void method. */
  method AutofacInterceptVoid(m: Method, attributes: seq<Attribute>, o: Overloads, s: State) returns (s': State)
    ensures s' == Onion(attributes, o.processVoid, Proceed(m))(s)
  {
    var processFunc := Proceed(m);
    for i := 0 to |attributes|
      invariant processFunc == Onion(attributes[..i], o.processVoid, Proceed(m))
    {
      OneMoreLayer(attributes, i, o.processVoid, Proceed(m));
      processFunc := o.processVoid(attributes[i])(processFunc);
    }
    assert attributes[..|attributes|] == attributes;
    return processFunc(s);
  }

  /** The method's return type picks the form. */
  method AutofacInterceptWith(m: Method, isProxy: bool, attributes: seq<Attribute>, o: Overloads, w: World)
    returns (w': World, returnValue: Object)
    ensures (w', returnValue) == AutofacOutcome(m, isProxy, attributes, o, w)
  {
    var s;
    match m {
      case VoidMethod(_) => s := AutofacInterceptVoid(m, attributes, o, Begin(w));
      case ValueMethod(_) => s := AutofacInterceptValue(m, attributes, o, Begin(w));
      case TaskMethod(start) => s := AutofacInterceptAsync(start, isProxy, attributes, o, Begin(w));
      case TaskOfValueMethod(startOf) => s := AutofacInterceptAsyncOf(startOf, isProxy, attributes, o, Begin(w));
    }
    return s.world, s.returnValue;
  }

  /** Without attributes every form is a plain call. */
  lemma AutofacWithoutAttributes(m: Method, isProxy: bool, o: Overloads, w: World)
    ensures AutofacOutcome(m, isProxy, [], o, w) == Call(m, w)
  {
  }

  /** Autofac's `Intercept`: the form for the method's return type, or a plain call without attributes. */
  method AutofacIntercept(m: Method, isProxy: bool, methodAttributes: seq<Attribute>, typeAttributes: seq<Attribute>,
                          targetAttributes: seq<Attribute>, targetTypeAttributes: seq<Attribute>,
                          o: Overloads, w: World)
    returns (w': World, returnValue: Object)
    ensures (w', returnValue) ==
            AutofacOutcome(m, isProxy, AutofacAttributes(methodAttributes, typeAttributes, targetAttributes,
                                                         targetTypeAttributes), o, w)
  {
    var attributes := AutofacAttributes(methodAttributes, typeAttributes, targetAttributes, targetTypeAttributes);
    if |attributes| > 0 {
      w', returnValue := AutofacInterceptWith(m, isProxy, attributes, o, w);
    } else {
      AutofacWithoutAttributes(m, isProxy, o, w);
      var s := Proceeded(m, Begin(w));
      return s.world, s.returnValue;
    }
  }

  // ----- Unity ---------------------------------------------------------------

  /** `getNext()(invocation, getNext)`. */
  function InvokeNext(m: Method, s: State): (State, MethodReturn) {
    (s.(world := Call(m, s.world).0), MethodReturn(Call(m, s.world).1))
  }

  function NextValue(m: Method): Func<Object> {
    (s: State) => (InvokeNext(m, s).0, InvokeNext(m, s).1.returnValue)
  }

  /** The void form's innermost function assigns to the captured local. */
  function NextCaptured(m: Method): Action {
    (s: State) => InvokeNext(m, s).0.(captured := Some(InvokeNext(m, s).1))
  }

  /** The asynchronous forms read the method return as a task. */
  function NextTask<T>(start: World -> (World, Task<T>)): Func<Task<T>> {
    (s: State) => (s.(world := start(s.world).0), start(s.world).1)
  }

  ghost function UnityOutcome(m: Method, attributes: seq<Attribute>, o: Overloads, w: World): (World, MethodReturn) {
    match m
    case VoidMethod(_) =>
      var s := Onion(attributes, o.processVoid, NextCaptured(m))(Begin(w));
      (s.world, if s.captured.Some? then s.captured.value else MethodReturn(Null))
    case ValueMethod(_) =>
      var (s, value) := Onion(attributes, o.process, NextValue(m))(Begin(w));
      (s.world, MethodReturn(value))
    case TaskMethod(start) =>
      var (s, task) := Onion(attributes, o.processAsync, NextTask(start))(Begin(w));
      (s.world, MethodReturn(TaskObject(task)))
    case TaskOfValueMethod(startOf) =>
      var (s, task) := Onion(attributes, o.processAsyncOf, NextTask(startOf))(Begin(w));
      (s.world, MethodReturn(TaskOfObject(task)))
  }

  method UnityInterceptAsync(start: World -> (World, Task<()>), attributes: seq<Attribute>, o: Overloads, s: State)
    returns (w': World, r: MethodReturn)
    ensures (w', r) == var (after, task) := Onion(attributes, o.processAsync, NextTask(start))(s);
                       (after.world, MethodReturn(TaskObject(task)))
  {
    var processAsyncFunc := NextTask(start);
    for i := 0 to |attributes|
      invariant processAsyncFunc == Onion(attributes[..i], o.processAsync, NextTask(start))
    {
      OneMoreLayer(attributes, i, o.processAsync, NextTask(start));
      processAsyncFunc := o.processAsync(attributes[i])(processAsyncFunc);
    }
    assert attributes[..|attributes|] == attributes;
    var (after, task) := processAsyncFunc(s);
    return after.world, MethodReturn(TaskObject(task));
  }

  method UnityInterceptAsyncOf(startOf: World -> (World, Task<Value>), attributes: seq<Attribute>, o: Overloads,
                               s: State)
    returns (w': World, r: MethodReturn)
    ensures (w', r) == var (after, task) := Onion(attributes, o.processAsyncOf, NextTask(startOf))(s);
                       (after.world, MethodReturn(TaskOfObject(task)))
  {
    var processAsyncFunc := NextTask(startOf);
    for i := 0 to |attributes|
      invariant processAsyncFunc == Onion(attributes[..i], o.processAsyncOf, NextTask(startOf))
    {
      OneMoreLayer(attributes, i, o.processAsyncOf, NextTask(startOf));
      processAsyncFunc := o.processAsyncOf(attributes[i])(processAsyncFunc);
    }
    assert attributes[..|attributes|] == attributes;
    var (after, task) := processAsyncFunc(s);
    return after.world, MethodReturn(TaskOfObject(task));
  }

  method UnityInvokeValue(m: Method, attributes: seq<Attribute>, o: Overloads, s: State)
    returns (w': World, r: MethodReturn)
    ensures (w', r) == var (after, value) := Onion(attributes, o.process, NextValue(m))(s);
                       (after.world, MethodReturn(value))
  {
    var processFunc := NextValue(m);
    for i := 0 to |attributes|
      invariant processFunc == Onion(attributes[..i], o.process, NextValue(m))
    {
      OneMoreLayer(attributes, i, o.process, NextValue(m));
      processFunc := o.process(attributes[i])(processFunc);
    }
    assert attributes[..|attributes|] == attributes;
    var (after, value) := processFunc(s);
    return after.world, MethodReturn(value);
  }

  /** The void form starts from a null local and returns a null result if nobody assigned it. */
  method UnityInvokeVoid(m: Method, attributes: seq<Attribute>, o: Overloads, w: World)
    returns (w': World, r: MethodReturn)
    ensures (w', r) == var after := Onion(attributes, o.processVoid, NextCaptured(m))(Begin(w));
                       (after.world, if after.captured.Some? then after.captured.value else MethodReturn(Null))
  {
    var processFunc := NextCaptured(m);
    for i := 0 to |attributes|
      invariant processFunc == Onion(attributes[..i], o.processVoid, NextCaptured(m))
    {
      OneMoreLayer(attributes, i, o.processVoid, NextCaptured(m));
      processFunc := o.processVoid(attributes[i])(processFunc);
    }
    assert attributes[..|attributes|] == attributes;
    var after := processFunc(Begin(w));
    return after.world, if after.captured.Some? then after.captured.value else MethodReturn(Null);
  }

  /** The method's return type picks the form. */
  method UnityInvokeWith(m: Method, attributes: seq<Attribute>, o: Overloads, w: World)
    returns (w': World, r: MethodReturn)
    ensures (w', r) == UnityOutcome(m, attributes, o, w)
  {
    match m {
      case VoidMethod(_) => w', r := UnityInvokeVoid(m, attributes, o, w);
      case ValueMethod(_) => w', r := UnityInvokeValue(m, attributes, o, Begin(w));
      case TaskMethod(start) => w', r := UnityInterceptAsync(start, attributes, o, Begin(w));
      case TaskOfValueMethod(startOf) => w', r := UnityInterceptAsyncOf(startOf, attributes, o, Begin(w));
    }
  }

  lemma UnityWithoutAttributes(m: Method, o: Overloads, w: World)
    ensures UnityOutcome(m, [], o, w) == (Call(m, w).0, MethodReturn(Call(m, w).1))
  {
  }

  /** Unity's `Invoke`, on the attributes it collects. */
  method UnityInvoke(m: Method, methodAttributes: seq<Attribute>, typeAttributes: seq<Attribute>,
                     o: Overloads, w: World)
    returns (w': World, r: MethodReturn)
    ensures (w', r) == UnityOutcome(m, UnityAttributes(methodAttributes, typeAttributes), o, w)
  {
    var attributes := UnityAttributes(methodAttributes, typeAttributes);
    if |attributes| > 0 {
      w', r := UnityInvokeWith(m, attributes, o, w);
    } else {
      UnityWithoutAttributes(m, o, w);
      var (after, methodReturn) := InvokeNext(m, Begin(w));
      return after.world, methodReturn;
    }
  }

  // ----- interceptors that call their function once --------------------------

  /** Work done before or after the call of the function, which sees the world only. */
  type Work = Attribute -> World -> World

  /** The overload for functions: work, call, work, and the function's own result. */
  function AroundFunc<R>(before: Work, after: Work): Attribute -> Func<R> -> Func<R> {
    (a: Attribute) => (func: Func<R>) => (s: State) =>
      var (s', r) := func(s.(world := before(a)(s.world)));
      (s'.(world := after(a)(s'.world)), r)
  }

  /** The overload for actions. */
  function AroundAction(before: Work, after: Work): Attribute -> Action -> Action {
    (a: Attribute) => (func: Action) => (s: State) =>
      var s' := func(s.(world := before(a)(s.world)));
      s'.(world := after(a)(s'.world))
  }

  /** The overload for asynchronous functions awaits the task and gives back one of its own. */
  function AroundAsync<T>(before: Work, after: Work): Attribute -> Func<Task<T>> -> Func<Task<T>> {
    (a: Attribute) => (func: Func<Task<T>>) => (s: State) =>
      var (s', task) := func(s.(world := before(a)(s.world)));
      var result := task.result;
      (s'.(world := after(a)(s'.world)), Completed(result))
  }

  /** All overloads of an interceptor that does the same work around each kind of function. */
  function AroundAll(before: Work, after: Work): Overloads {
    Overloads(AroundFunc(before, after), AroundAction(before, after), AroundAsync(before, after), AroundAsync(before, after))
  }

  /** The work on the way in, from the last attribute to the first. */
  ghost function Inward(attributes: seq<Attribute>, before: Work, w: World): World {
    if attributes == [] then w
    else Inward(attributes[..|attributes| - 1], before, before(attributes[|attributes| - 1])(w))
  }

  /** The work on the way out, from the first attribute to the last. */
  ghost function Outward(attributes: seq<Attribute>, after: Work, w: World): World {
    if attributes == [] then w
    else after(attributes[|attributes| - 1])(Outward(attributes[..|attributes| - 1], after, w))
  }

  lemma {:induction false} FuncOnion<R>(attributes: seq<Attribute>, before: Work, after: Work, target: Func<R>,
                                        s: State)
    ensures var (s', r) := target(s.(world := Inward(attributes, before, s.world)));
            Onion(attributes, AroundFunc(before, after), target)(s) == (s'.(world := Outward(attributes, after, s'.world)), r)
  {
    if attributes == [] {
      assert s.(world := s.world) == s;
    } else {
      FuncOnion(attributes[..|attributes| - 1], before, after, target, s.(world := before(attributes[|attributes| - 1])(s.world)));
    }
  }

  lemma {:induction false} ActionOnion(attributes: seq<Attribute>, before: Work, after: Work, target: Action, s: State)
    ensures var s' := target(s.(world := Inward(attributes, before, s.world)));
            Onion(attributes, AroundAction(before, after), target)(s) == s'.(world := Outward(attributes, after, s'.world))
  {
    if attributes == [] {
      assert s.(world := s.world) == s;
    } else {
      ActionOnion(attributes[..|attributes| - 1], before, after, target, s.(world := before(attributes[|attributes| - 1])(s.world)));
    }
  }

  lemma {:induction false} AsyncOnion<T>(attributes: seq<Attribute>, before: Work, after: Work, target: Func<Task<T>>,
                                         s: State)
    ensures var (s', task) := target(s.(world := Inward(attributes, before, s.world)));
            Onion(attributes, AroundAsync(before, after), target)(s) == (s'.(world := Outward(attributes, after, s'.world)), task)
  {
    if attributes == [] {
      assert s.(world := s.world) == s;
    } else {
      AsyncOnion(attributes[..|attributes| - 1], before, after, target, s.(world := before(attributes[|attributes| - 1])(s.world)));
    }
  }

  /** The whole work inward, one call of the method, the whole work outward, and what the call returned. */
  ghost function AroundOneCall(m: Method, attributes: seq<Attribute>, before: Work, after: Work, w: World): (World,
                               Object) {
    var (w', returned) := Call(m, Inward(attributes, before, w));
    (Outward(attributes, after, w'), returned)
  }

  lemma AutofacVoidForm(m: Method, isProxy: bool, attributes: seq<Attribute>, before: Work, after: Work, w: World)
    requires m.VoidMethod?
    ensures AutofacOutcome(m, isProxy, attributes, AroundAll(before, after), w) ==
            AroundOneCall(m, attributes, before, after, w)
  {
    ActionOnion(attributes, before, after, Proceed(m), Begin(w));
  }

  lemma UnityVoidForm(m: Method, attributes: seq<Attribute>, before: Work, after: Work, w: World)
    requires m.VoidMethod?
    ensures UnityOutcome(m, attributes, AroundAll(before, after), w) ==
            var (w', returned) := AroundOneCall(m, attributes, before, after, w); (w', MethodReturn(returned))
  {
    ActionOnion(attributes, before, after, NextCaptured(m), Begin(w));
  }

  lemma AutofacValue(m: Method, attributes: seq<Attribute>, before: Work, after: Work, s: State)
    ensures var s' := Proceeded(m, s.(world := Inward(attributes, before, s.world)));
            Onion(attributes, AroundFunc(before, after), Process(m))(s) ==
            (s'.(world := Outward(attributes, after, s'.world)), s'.returnValue)
  {
    FuncOnion(attributes, before, after, Process(m), s);
  }

  lemma UnityValue(m: Method, attributes: seq<Attribute>, before: Work, after: Work, s: State)
    ensures var (s', r) := InvokeNext(m, s.(world := Inward(attributes, before, s.world)));
            Onion(attributes, AroundFunc(before, after), NextValue(m))(s) ==
            (s'.(world := Outward(attributes, after, s'.world)), r.returnValue)
  {
    FuncOnion(attributes, before, after, NextValue(m), s);
  }

  lemma AutofacValueForm(m: Method, isProxy: bool, attributes: seq<Attribute>, before: Work, after: Work, w: World)
    requires m.ValueMethod?
    ensures AutofacOutcome(m, isProxy, attributes, AroundAll(before, after), w) ==
            AroundOneCall(m, attributes, before, after, w)
  {
    AutofacValue(m, attributes, before, after, Begin(w));
  }

  lemma UnityValueForm(m: Method, attributes: seq<Attribute>, before: Work, after: Work, w: World)
    requires m.ValueMethod?
    ensures UnityOutcome(m, attributes, AroundAll(before, after), w) ==
            var (w', returned) := AroundOneCall(m, attributes, before, after, w); (w', MethodReturn(returned))
  {
    UnityValue(m, attributes, before, after, Begin(w));
  }

  lemma AutofacTaskForm(m: Method, isProxy: bool, attributes: seq<Attribute>, before: Work, after: Work, w: World)
    requires m.TaskMethod?
    ensures AutofacOutcome(m, isProxy, attributes, AroundAll(before, after), w) ==
            AroundOneCall(m, attributes, before, after, w)
  {
    AsyncOnion(attributes, before, after, InvokeTargetMethod(m.start, TaskAsObject, isProxy), Begin(w));
  }

  lemma UnityTaskForm(m: Method, attributes: seq<Attribute>, before: Work, after: Work, w: World)
    requires m.TaskMethod?
    ensures UnityOutcome(m, attributes, AroundAll(before, after), w) ==
            var (w', returned) := AroundOneCall(m, attributes, before, after, w); (w', MethodReturn(returned))
  {
    AsyncOnion(attributes, before, after, NextTask(m.start), Begin(w));
  }

  lemma AutofacTaskOfValueForm(m: Method, isProxy: bool, attributes: seq<Attribute>, before: Work, after: Work, w: World)
    requires m.TaskOfValueMethod?
    ensures AutofacOutcome(m, isProxy, attributes, AroundAll(before, after), w) ==
            AroundOneCall(m, attributes, before, after, w)
  {
    AsyncOnion(attributes, before, after, InvokeTargetMethod(m.startOf, TaskOfAsObject, isProxy), Begin(w));
  }

  lemma UnityTaskOfValueForm(m: Method, attributes: seq<Attribute>, before: Work, after: Work, w: World)
    requires m.TaskOfValueMethod?
    ensures UnityOutcome(m, attributes, AroundAll(before, after), w) ==
            var (w', returned) := AroundOneCall(m, attributes, before, after, w); (w', MethodReturn(returned))
  {
    AsyncOnion(attributes, before, after, NextTask(m.startOf), Begin(w));
  }

  /**
   All eight forms do the same. Whatever an interceptor does around its function, if it does so in
   each overload, then in either container, and for a method of any return type, the whole work on
   the way in is done, the method is called once, the whole work on the way out is done, and the
   caller gets what the method returned.
   */
  lemma AllFormsWorkAroundOneCall(m: Method, isProxy: bool, attributes: seq<Attribute>, before: Work, after: Work,
                                  w: World)
    ensures AutofacOutcome(m, isProxy, attributes, AroundAll(before, after), w) ==
            AroundOneCall(m, attributes, before, after, w)
    ensures UnityOutcome(m, attributes, AroundAll(before, after), w) ==
            var (w', returned) := AroundOneCall(m, attributes, before, after, w); (w', MethodReturn(returned))
  {
    match m
    case VoidMethod(_) =>
      AutofacVoidForm(m, isProxy, attributes, before, after, w);
      UnityVoidForm(m, attributes, before, after, w);
    case ValueMethod(_) =>
      AutofacValueForm(m, isProxy, attributes, before, after, w);
      UnityValueForm(m, attributes, before, after, w);
    case TaskMethod(_) =>
      AutofacTaskForm(m, isProxy, attributes, before, after, w);
      UnityTaskForm(m, attributes, before, after, w);
    case TaskOfValueMethod(_) =>
      AutofacTaskOfValueForm(m, isProxy, attributes, before, after, w);
      UnityTaskOfValueForm(m, attributes, before, after, w);
  }

  /** The same, kind of method by kind of method. */
  lemma MethodRunsInEveryForm(m: Method, isProxy: bool, attributes: seq<Attribute>, before: Work, after: Work, w: World)
    ensures var entered := Inward(attributes, before, w);
            var (autofac, value) := AutofacOutcome(m, isProxy, attributes, AroundAll(before, after), w);
            var (unity, methodReturn) := UnityOutcome(m, attributes, AroundAll(before, after), w);
            && autofac == unity && methodReturn == MethodReturn(value)
            && match m
               case VoidMethod(call) => autofac == Outward(attributes, after, call(entered)) && value == Null
               case ValueMethod(compute) =>
                 autofac == Outward(attributes, after, compute(entered).0) && value == Boxed(compute(entered).1)
               case TaskMethod(start) =>
                 autofac == Outward(attributes, after, start(entered).0) && value == TaskObject(start(entered).1)
               case TaskOfValueMethod(startOf) =>
                 autofac == Outward(attributes, after, startOf(entered).0) && value == TaskOfObject(startOf(entered).1)
  {
    AllFormsWorkAroundOneCall(m, isProxy, attributes, before, after, w);
  }

  // ----- the trace -----------------------------------------------------------

  function Entering(a: Attribute): World -> World {
    (w: World) => w.(trace := w.trace + [Enter(a.name)])
  }

  function Leaving(a: Attribute): World -> World {
    (w: World) => w.(trace := w.trace + [Leave(a.name)])
  }

  function Enters(attributes: seq<Attribute>): seq<Event> {
    if attributes == [] then [] else [Enter(attributes[|attributes| - 1].name)] + Enters(attributes[..|attributes| - 1])
  }

  function Leaves(attributes: seq<Attribute>): seq<Event> {
    if attributes == [] then [] else Leaves(attributes[..|attributes| - 1]) + [Leave(attributes[|attributes| - 1].name)]
  }

  lemma {:induction false} EnteringIsTraced(attributes: seq<Attribute>, w: World)
    ensures Inward(attributes, Entering, w) == World(w.trace + Enters(attributes), w.runs)
  {
    if attributes == [] {
      assert w.trace + [] == w.trace;
    } else {
      var front, a := attributes[..|attributes| - 1], attributes[|attributes| - 1];
      EnteringIsTraced(front, Entering(a)(w));
      assert w.trace + [Enter(a.name)] + Enters(front) == w.trace + ([Enter(a.name)] + Enters(front));
    }
  }

  lemma {:induction false} LeavingIsTraced(attributes: seq<Attribute>, w: World)
    ensures Outward(attributes, Leaving, w) == World(w.trace + Leaves(attributes), w.runs)
  {
    if attributes == [] {
      assert w.trace + [] == w.trace;
    } else {
      var front, a := attributes[..|attributes| - 1], attributes[|attributes| - 1];
      LeavingIsTraced(front, w);
      assert w.trace + Leaves(front) + [Leave(a.name)] == w.trace + (Leaves(front) + [Leave(a.name)]);
    }
  }

  function Mirror(events: seq<Event>): seq<Event> {
    if events == [] then []
    else
      var e := events[0];
      Mirror(events[1..]) + [match e case Enter(n) => Leave(n) case Leave(n) => Enter(n) case Target => Target]
  }

  lemma {:induction false} LeavesMirrorEnters(attributes: seq<Attribute>)
    ensures Leaves(attributes) == Mirror(Enters(attributes))
  {
    if attributes == [] {
    } else {
      LeavesMirrorEnters(attributes[..|attributes| - 1]);
      assert Enters(attributes)[1..] == Enters(attributes[..|attributes| - 1]);
    }
  }

  /** A call of the method leaves one more run and its mark in the trace, whatever its return type. */
  ghost predicate Traced(m: Method) {
    forall w :: Call(m, w).0 == World(w.trace + [Target], w.runs + 1)
  }

  lemma TraceOfOneCall(m: Method, attributes: seq<Attribute>, w: World)
    requires Traced(m)
    ensures AroundOneCall(m, attributes, Entering, Leaving, w) ==
            (World(w.trace + Enters(attributes) + [Target] + Mirror(Enters(attributes)), w.runs + 1),
             Call(m, Inward(attributes, Entering, w)).1)
  {
    EnteringIsTraced(attributes, w);
    LeavingIsTraced(attributes, Call(m, Inward(attributes, Entering, w)).0);
    LeavesMirrorEnters(attributes);
  }

  /** The trace that an ordered list of attributes is to leave around the target's own mark. */
  ghost predicate TraceIs(trace: seq<Event>, before: seq<Event>, list: seq<Attribute>) {
    && |trace| == |before| + 2 * |list| + 1 && trace[..|before|] == before && trace[|before| + |list|] == Target
    && forall i :: 0 <= i < |list| ==> LayerAt(trace, before, list, i)
  }

  /** The i-th layer from outside belongs to the i-th attribute from the end of the list. */
  ghost predicate LayerAt(trace: seq<Event>, before: seq<Event>, list: seq<Attribute>, i: nat)
    requires i < |list| && |trace| == |before| + 2 * |list| + 1
  {
    && trace[|before| + i] == Enter(list[|list| - 1 - i].name)
    && trace[|before| + 2 * |list| - i] == Leave(list[|list| - 1 - i].name)
  }

  lemma {:induction false} EntersAt(list: seq<Attribute>, i: nat)
    requires i < |list|
    ensures |Enters(list)| == |list| && Enters(list)[i] == Enter(list[|list| - 1 - i].name)
  {
    EntersCount(list);
    if i > 0 {
      EntersAt(list[..|list| - 1], i - 1);
    }
  }

  lemma {:induction false} EntersCount(list: seq<Attribute>)
    ensures |Enters(list)| == |list| && |Leaves(list)| == |list|
  {
    if list == [] {
    } else {
      EntersCount(list[..|list| - 1]);
    }
  }

  lemma {:induction false} LeavesAt(list: seq<Attribute>, i: nat)
    requires i < |list|
    ensures |Leaves(list)| == |list| && Leaves(list)[i] == Leave(list[i].name)
  {
    EntersCount(list);
    EntersCount(list[..|list| - 1]);
    if i < |list| - 1 {
      LeavesAt(list[..|list| - 1], i);
    }
  }

  lemma NestedTrace(list: seq<Attribute>, before: seq<Event>)
    ensures TraceIs(before + Enters(list) + [Target] + Mirror(Enters(list)), before, list)
  {
    EntersCount(list);
    LeavesMirrorEnters(list);
    var trace := before + Enters(list) + [Target] + Leaves(list);
    forall i | 0 <= i < |list|
      ensures LayerAt(trace, before, list, i)
    {
      EntersAt(list, i);
      LeavesAt(list, |list| - 1 - i);
      assert trace[|before| + 2 * |list| - i] == Leaves(list)[|list| - 1 - i];
    }
  }

  /**
   For interceptors that enter, call once and leave, every kind of method gives one nested trace, in
   either container: the collected attributes are entered from the last one down and left in mirror
   order, the target runs once in the middle, and its own result comes back.
   */
  lemma AllFormsGiveTheSameTrace(ofMethod: seq<Attribute>, ofType: seq<Attribute>, ofTarget: seq<Attribute>,
                                 ofTargetType: seq<Attribute>, m: Method, isProxy: bool, w: World)
    requires Traced(m)
    ensures var list := AutofacAttributes(ofMethod, ofType, ofTarget, ofTargetType);
            RunsAround(list, m, w, AutofacOutcome(m, isProxy, list, AroundAll(Entering, Leaving), w))
    ensures var list := UnityAttributes(ofMethod, ofType);
            var (unity, methodReturn) := UnityOutcome(m, list, AroundAll(Entering, Leaving), w);
            RunsAround(list, m, w, (unity, methodReturn.returnValue))
  {
    OutcomesAreTraced(m, isProxy, AutofacAttributes(ofMethod, ofType, ofTarget, ofTargetType), w);
    OutcomesAreTraced(m, isProxy, UnityAttributes(ofMethod, ofType), w);
  }

  /** If the target brings no attributes of its own, both containers leave the same world and give the same object back. */
  lemma ContainersGiveTheSameOutcome(ofMethod: seq<Attribute>, ofType: seq<Attribute>, ofTarget: seq<Attribute>,
                                     ofTargetType: seq<Attribute>, m: Method, isProxy: bool, w: World)
    requires Traced(m)
    requires forall a :: a in ofTarget + ofTargetType ==> a in ofMethod + ofType
    ensures var (unity, methodReturn) := UnityOutcome(m, UnityAttributes(ofMethod, ofType), AroundAll(Entering, Leaving), w);
            var list := AutofacAttributes(ofMethod, ofType, ofTarget, ofTargetType);
            AutofacOutcome(m, isProxy, list, AroundAll(Entering, Leaving), w) == (unity, methodReturn.returnValue)
  {
    ContainersCollectAlike(ofMethod, ofType, ofTarget, ofTargetType);
    OutcomesAreTraced(m, isProxy, UnityAttributes(ofMethod, ofType), w);
  }

  /** The outcome of running the target once inside the nested layers of `list`. */
  ghost predicate RunsAround(list: seq<Attribute>, m: Method, w: World, outcome: (World, Object)) {
    && TraceIs(outcome.0.trace, w.trace, list) && outcome.0.runs == w.runs + 1
    && outcome.1 == Call(m, Inward(list, Entering, w)).1
  }

  lemma OutcomesAreTraced(m: Method, isProxy: bool, list: seq<Attribute>, w: World)
    requires Traced(m)
    ensures var (unity, methodReturn) := UnityOutcome(m, list, AroundAll(Entering, Leaving), w);
            && RunsAround(list, m, w, (unity, methodReturn.returnValue))
            && AutofacOutcome(m, isProxy, list, AroundAll(Entering, Leaving), w) == (unity, methodReturn.returnValue)
  {
    AllFormsWorkAroundOneCall(m, isProxy, list, Entering, Leaving, w);
    TraceOfOneCall(m, list, w);
    NestedTrace(list, w.trace);
  }

  /** The first event after `before` is the entry into this attribute's layer. */
  ghost predicate EnteredFirst(after: World, a: Attribute, before: World) {
    |before.trace| < |after.trace| && after.trace[|before.trace|] == Enter(a.name)
  }

  /** The layer entered first is that of an attribute with the highest order of all collected. */
  ghost predicate HighestEntersFirst(collected: seq<Attribute>, list: seq<Attribute>, after: World, before: World) {
    collected != [] ==>
      && list != [] && (forall a :: a in collected ==> a.order <= list[|list| - 1].order)
      && EnteredFirst(after, list[|list| - 1], before)
  }

  /** So it is in either container, for what it collects. */
  lemma HighestOrderEntersFirst(ofMethod: seq<Attribute>, ofType: seq<Attribute>, ofTarget: seq<Attribute>,
                                ofTargetType: seq<Attribute>, m: Method, isProxy: bool, w: World)
    requires Traced(m)
    ensures var list := AutofacAttributes(ofMethod, ofType, ofTarget, ofTargetType);
            HighestEntersFirst(ofMethod + ofType + ofTarget + ofTargetType, list,
                               AutofacOutcome(m, isProxy, list, AroundAll(Entering, Leaving), w).0, w)
    ensures var list := UnityAttributes(ofMethod, ofType);
            HighestEntersFirst(ofMethod + ofType, list, UnityOutcome(m, list, AroundAll(Entering, Leaving), w).0, w)
  {
    CollectedEnterFirst(m, isProxy, ofMethod + ofType + ofTarget + ofTargetType, w);
    CollectedEnterFirst(m, isProxy, ofMethod + ofType, w);
  }

  lemma CollectedEnterFirst(m: Method, isProxy: bool, collected: seq<Attribute>, w: World)
    requires Traced(m)
    ensures var list := OrderByOrder(Distinct(collected));
            && HighestEntersFirst(collected, list, AutofacOutcome(m, isProxy, list, AroundAll(Entering, Leaving), w).0, w)
            && HighestEntersFirst(collected, list, UnityOutcome(m, list, AroundAll(Entering, Leaving), w).0, w)
  {
    CollectedAttributes(collected);
    LastEntersFirst(m, isProxy, OrderByOrder(Distinct(collected)), w);
  }

  lemma LastEntersFirst(m: Method, isProxy: bool, list: seq<Attribute>, w: World)
    requires Traced(m)
    ensures list != [] ==>
              && EnteredFirst(AutofacOutcome(m, isProxy, list, AroundAll(Entering, Leaving), w).0, list[|list| - 1], w)
              && EnteredFirst(UnityOutcome(m, list, AroundAll(Entering, Leaving), w).0, list[|list| - 1], w)
  {
    if list != [] {
      OutcomesAreTraced(m, isProxy, list, w);
      FirstLayer(AutofacOutcome(m, isProxy, list, AroundAll(Entering, Leaving), w).0.trace, w.trace, list);
    }
  }

  lemma FirstLayer(trace: seq<Event>, before: seq<Event>, list: seq<Attribute>)
    requires TraceIs(trace, before, list) && list != []
    ensures |before| < |trace| && trace[|before|] == Enter(list[|list| - 1].name)
  {
    assert LayerAt(trace, before, list, 0);
  }

  // ----- how often the target runs -------------------------------------------

  /** The work runs the target by no other way. */
  ghost predicate LeavesTargetAlone(work: Work) {
    forall a, w :: work(a)(w).runs == w.runs
  }

  lemma {:induction false} WorkRunsNothing(attributes: seq<Attribute>, work: Work, w: World)
    requires LeavesTargetAlone(work)
    ensures Inward(attributes, work, w).runs == w.runs && Outward(attributes, work, w).runs == w.runs
  {
    if attributes == [] {
    } else {
      var front, a := attributes[..|attributes| - 1], attributes[|attributes| - 1];
      WorkRunsNothing(front, work, work(a)(w));
      WorkRunsNothing(front, work, w);
      assert Outward(attributes, work, w) == work(a)(Outward(front, work, w));
      assert Inward(attributes, work, w) == Inward(front, work, work(a)(w));
    }
  }

  /** If every interceptor calls its function once, the target runs exactly once in every form. */
  lemma TargetRunsOnce(m: Method, isProxy: bool, attributes: seq<Attribute>, before: Work, after: Work, w: World)
    requires LeavesTargetAlone(before) && LeavesTargetAlone(after)
    requires forall v :: Call(m, v).0.runs == v.runs + 1
    ensures AutofacOutcome(m, isProxy, attributes, AroundAll(before, after), w).0.runs == w.runs + 1
    ensures UnityOutcome(m, attributes, AroundAll(before, after), w).0.runs == w.runs + 1
  {
    AllFormsWorkAroundOneCall(m, isProxy, attributes, before, after, w);
    WorkRunsNothing(attributes, before, w);
    WorkRunsNothing(attributes, after, Call(m, Inward(attributes, before, w)).0);
  }
}
