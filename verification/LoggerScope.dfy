/**
 Logger scopes: a chain of scope objects linked to their parents, disposed in any order, and
 the properties a log event takes from the chain.
 */
module LoggerScopes {
  import opened Wrappers

  /** A scope's state: null, key-value pairs, or any other object. */
  datatype ScopeState = NullState | Pairs(pairs: seq<(string, string)>) | Other(value: string)

  /** A property: a plain value, or the list kept under the `Scope` key. */
  datatype Property = Plain(value: string) | Values(values: seq<string>)

  type Properties = map<string, Property>

  // ----- the specification of the properties ---------------------------------

  /** What a state contributes: an object that is not a dictionary counts as a `Scope` entry. */
  function Contribution(state: ScopeState): seq<(string, string)> {
    match state
    case NullState => []
    case Pairs(pairs) => pairs
    case Other(value) => [("Scope", value)]
  }

  function ScopeValues(properties: Properties): seq<string> {
    if "Scope" in properties && properties["Scope"].Values? then properties["Scope"].values else []
  }

  function AddPair(properties: Properties, pair: (string, string)): Properties {
    if pair.0 != "Scope" then properties[pair.0 := Plain(pair.1)]
    else properties["Scope" := Values(ScopeValues(properties) + [pair.1])]
  }

  function AddPairs(properties: Properties, pairs: seq<(string, string)>): Properties {
    if pairs == [] then properties
    else AddPair(AddPairs(properties, pairs[..|pairs| - 1]), pairs[|pairs| - 1])
  }

  lemma {:induction false} AddPairsConcat(properties: Properties, a: seq<(string, string)>, b: seq<(string, string)>)
    ensures AddPairs(properties, a + b) == AddPairs(AddPairs(properties, a), b)
  {
    if b == [] {
      assert a + b == a;
    } else {
      assert (a + b)[..|a + b| - 1] == a + b[..|b| - 1];
      AddPairsConcat(properties, a, b[..|b| - 1]);
    }
  }

  // ----- the scopes ----------------------------------------------------------

  class LoggerProvider {
    var currentScope: LoggerScope?
    /** Every scope ever opened. */
    ghost var scopes: set<LoggerScope>
    /** Those of them that were disposed. */
    ghost var gone: set<LoggerScope>

    constructor ()
      ensures Valid() && scopes == {} && currentScope == null
    {
      currentScope, scopes, gone := null, {}, {};
    }

    /** Each scope is linked to scopes of this provider, down to the root. */
    ghost predicate Linked()
      reads this
    {
      && (forall s {:trigger LinkedToRoot(s)} :: s in scopes ==> LinkedToRoot(s))
      && (forall s :: s in scopes ==> s.provider == this)
      && (forall s, a :: s in scopes && a in s.ancestors ==> a in scopes)
      && (currentScope != null ==> currentScope in scopes)
    }

    /**
     The chain from the current scope is exactly the set of opened scopes that have no disposed
     scope on their path to the root, themselves included.
     */
    ghost predicate ChainIsLive()
      reads this
    {
      forall s :: s in scopes ==> (s in Chain(currentScope) <==> Live(s, gone))
    }

    ghost predicate Valid()
      reads this, scopes
    {
      Linked() && ChainIsLive() && FlagsMatch()
    }

    ghost predicate FlagsMatch()
      reads this, scopes
    {
      forall s :: s in scopes ==> (s.disposed <==> s in gone)
    }
  }

  /** A scope and the scopes around it, innermost first. */
  ghost function Chain(s: LoggerScope?): seq<LoggerScope> {
    if s == null then [] else [s] + s.ancestors
  }

  ghost predicate LinkedToRoot(s: LoggerScope) {
    s.WellLinked()
  }

  /** No scope on the path from `s` to the root is disposed. */
  ghost predicate Live(s: LoggerScope, gone: set<LoggerScope>) {
    forall x :: x in Chain(s) ==> x !in gone
  }

  class LoggerScope {
    const provider: LoggerProvider
    const parent: LoggerScope?
    const state: ScopeState
    var disposed: bool
    /** The scopes around this one, innermost first. */
    ghost const ancestors: seq<LoggerScope>

    ghost predicate WellLinked()
      decreases |ancestors|
    {
      if parent == null then ancestors == []
      else ancestors == [parent] + parent.ancestors && parent.WellLinked()
    }

    constructor (provider: LoggerProvider, state: ScopeState)
      requires provider.Valid()
      modifies provider
      ensures provider.Valid()
      ensures provider.scopes == old(provider.scopes) + {this} && this !in old(provider.scopes)
      ensures provider.currentScope == this && parent == old(provider.currentScope)
      ensures Chain(provider.currentScope) == [this] + old(Chain(provider.currentScope))
      ensures this.provider == provider && this.state == state && !disposed
      ensures provider.gone == old(provider.gone) - {this}
    {
      assert provider.currentScope != null ==> LinkedToRoot(provider.currentScope);
      this.provider, this.state, disposed := provider, state, false;
      parent := provider.currentScope;
      ancestors := if provider.currentScope == null then [] else [provider.currentScope] + provider.currentScope.ancestors;
      new;
      provider.currentScope := this;
      provider.scopes := provider.scopes + {this};
      provider.gone := provider.gone - {this};
      forall x | x in ancestors
        ensures x !in provider.gone
      {
        assert x in old(provider.scopes) && Live(x, old(provider.gone)) && x in Chain(x);
      }
    }

    /** The search from the current scope along the parents. */
    method FindInChain() returns (found: bool, ghost n: nat)
      requires provider.currentScope != null ==> provider.currentScope.WellLinked()
      ensures !found ==> this !in Chain(provider.currentScope)
      ensures found ==> n < |Chain(provider.currentScope)| && Chain(provider.currentScope)[n] == this
                        && Chain(parent) == Chain(provider.currentScope)[n + 1..]
    {
      ghost var chain := Chain(provider.currentScope);
      var loggerScope := provider.currentScope;
      n := 0;
      while loggerScope != null
        invariant 0 <= n <= |chain| && chain[n..] == Chain(loggerScope)
        invariant loggerScope != null ==> loggerScope.WellLinked()
        invariant forall k :: 0 <= k < n ==> chain[k] != this
        decreases |chain| - n
      {
        assert chain[n] == loggerScope && chain[n..][1..] == chain[n + 1..];
        if loggerScope == this {
          return true, n;
        }
        loggerScope := loggerScope.parent;
        n := n + 1;
      }
      found := false;
    }

    /** It leaves the members of the chain whose own chain avoids this scope. */
    method LeaveChain()
      requires provider.currentScope != null ==> provider.currentScope.WellLinked()
      modifies provider`currentScope
      ensures provider.currentScope == old(provider.currentScope) || provider.currentScope == parent
      ensures forall t :: t in Chain(provider.currentScope) <==> t in old(Chain(provider.currentScope)) && this !in Chain(t)
    {
      var found;
      ghost var n;
      found, n := FindInChain();
      if found {
        RestOfChain(provider.currentScope, n);
        provider.currentScope := parent;
      } else {
        AbsentFromChain(provider.currentScope, this);
      }
    }

    /** A second disposal does nothing; the first one takes this scope and the scopes inside it off the chain. */
    method Dispose()
      requires provider.Valid() && this in provider.scopes
      modifies provider`currentScope, provider`gone, `disposed
      ensures provider.Valid() && disposed && provider.scopes == old(provider.scopes)
      ensures provider.gone == old(provider.gone) + {this}
      ensures old(disposed) ==> provider.currentScope == old(provider.currentScope)
    {
      if disposed {
        return;
      }
      assert provider.currentScope != null ==> LinkedToRoot(provider.currentScope);
      assert LinkedToRoot(this) && (parent != null ==> parent in ancestors);
      MarkDisposed();
      LiveAfterDisposal(provider.scopes, old(provider.gone), this);
      LeaveChain();
    }

    method MarkDisposed()
      requires provider.FlagsMatch()
      modifies provider`gone, `disposed
      ensures provider.FlagsMatch() && disposed && provider.gone == old(provider.gone) + {this}
    {
      disposed := true;
      provider.gone := provider.gone + {this};
    }

    /** The properties of a log event: the whole chain's pairs, outermost first. */
    method GetLogProperties(properties: Option<Properties>) returns (result: Properties)
      requires WellLinked()
      ensures result == AddPairs(map[], PairsOf(Chain(this)))
      decreases |ancestors|
    {
      result := map[];
      if parent != null {
        result := parent.GetLogProperties(properties);
      }
      assert Chain(this)[1..] == Chain(parent);
      ghost var outer := result;
      match state {
        case NullState =>
        case Other(value) =>
          result := result["Scope" := Values(ScopeValues(result) + [value])];
          assert [("Scope", value)][..0] == [];
        case Pairs(pairs) =>
          result := AddAll(result, pairs);
      }
      assert result == AddPairs(outer, Contribution(state));
      AddPairsConcat(map[], PairsOf(Chain(parent)), Contribution(state));
    }
  }

  /** The loop over a dictionary state. */
  method AddAll(properties: Properties, pairs: seq<(string, string)>) returns (result: Properties)
    ensures result == AddPairs(properties, pairs)
  {
    result := properties;
    var i := 0;
    while i < |pairs|
      invariant 0 <= i <= |pairs| && result == AddPairs(properties, pairs[..i])
    {
      var (key, value) := pairs[i];
      if key != "Scope" {
        result := result[key := Plain(value)];
      } else {
        result := result["Scope" := Values(ScopeValues(result) + [value])];
      }
      assert pairs[..i + 1][..i] == pairs[..i];
      i := i + 1;
    }
    assert pairs[..i] == pairs;
  }

  /** All pairs of a chain, outermost scope first. */
  ghost function PairsOf(chain: seq<LoggerScope>): seq<(string, string)> {
    if chain == [] then [] else PairsOf(chain[1..]) + Contribution(chain[0].state)
  }

  /** `after` is `before` with the value added to the list under `Scope`, which is made when it is missing. */
  ghost predicate ScopeListGrows(before: Properties, after: Properties, value: string) {
    && (forall key :: key in after <==> key in before || key == "Scope")
    && (forall key :: key in before && key != "Scope" ==> after[key] == before[key])
    && (after["Scope"] == if "Scope" in before && before["Scope"].Values? then Values(before["Scope"].values + [value])
                          else Values([value]))
  }

  /** `after` is `before` with this value under this key, whatever stood there. */
  ghost predicate IsSet(before: Properties, after: Properties, key: string, value: string) {
    && (forall k :: k in after <==> k in before || k == key)
    && (forall k :: k in before && k != key ==> after[k] == before[k])
    && after[key] == Plain(value)
  }

  /** A further pair overwrites its key, or extends the list if the key is `Scope`. */
  lemma PairIsAdded(properties: Properties, pairs: seq<(string, string)>, key: string, value: string)
    ensures var before, after := AddPairs(properties, pairs), AddPairs(properties, pairs + [(key, value)]);
            if key == "Scope" then ScopeListGrows(before, after, value) else IsSet(before, after, key, value)
  {
    assert (pairs + [(key, value)])[..|pairs|] == pairs;
  }

  /**
   What one scope adds to the properties of the scopes around it: nothing if its state is null,
   its pairs in order if it has pairs, and otherwise its state as a further `Scope` value.
   */
  lemma ScopeAddsItsState(s: LoggerScope)
    requires s.WellLinked()
    ensures var before, after := AddPairs(map[], PairsOf(Chain(s.parent))), AddPairs(map[], PairsOf(Chain(s)));
            match s.state
            case NullState => after == before
            case Other(value) => ScopeListGrows(before, after, value)
            case Pairs(pairs) => after == AddPairs(before, pairs)
  {
    assert Chain(s)[1..] == Chain(s.parent);
    AddPairsConcat(map[], PairsOf(Chain(s.parent)), Contribution(s.state));
    if s.state.Other? {
      PairIsAdded(AddPairs(map[], PairsOf(Chain(s.parent))), [], "Scope", s.state.value);
      assert [] + [("Scope", s.state.value)] == [("Scope", s.state.value)];
    }
  }

  /** The value of the innermost pair with a key. */
  function LastValue(pairs: seq<(string, string)>, key: string): Option<string> {
    if pairs == [] then None
    else if pairs[|pairs| - 1].0 == key then Some(pairs[|pairs| - 1].1)
    else LastValue(pairs[..|pairs| - 1], key)
  }

  /** The values under a key, outermost first. */
  function AllValues(pairs: seq<(string, string)>, key: string): seq<string> {
    if pairs == [] then []
    else AllValues(pairs[..|pairs| - 1], key) + (if pairs[|pairs| - 1].0 == key then [pairs[|pairs| - 1].1] else [])
  }

  /**
   What the fold means: an ordinary key has the value of the innermost pair that sets it, and
   `Scope` lists all its values from the outermost scope in.
   */
  lemma {:induction false} InnerKeysWinAndScopesAccumulate(pairs: seq<(string, string)>, key: string)
    ensures var result := AddPairs(map[], pairs);
            if key == "Scope" then
              && (key in result <==> AllValues(pairs, key) != [])
              && (key in result ==> result[key] == Values(AllValues(pairs, key)))
            else
              && (key in result <==> LastValue(pairs, key).Some?)
              && (key in result ==> result[key] == Plain(LastValue(pairs, key).value))
  {
    if pairs == [] {
    } else {
      InnerKeysWinAndScopesAccumulate(pairs[..|pairs| - 1], key);
      InnerKeysWinAndScopesAccumulate(pairs[..|pairs| - 1], "Scope");
    }
  }

  /** The chain from a member of a chain is the rest of that chain. */
  lemma {:induction false} ChainOfMember(c: LoggerScope, i: nat)
    requires c.WellLinked() && i < |Chain(c)|
    ensures Chain(Chain(c)[i]) == Chain(c)[i..]
    decreases i
  {
    if i == 0 {
    } else {
      assert Chain(c)[1..] == Chain(c.parent);
      ChainOfMember(c.parent, i - 1);
      assert Chain(c)[i..] == Chain(c.parent)[i - 1..];
    }
  }

  /** Scopes are met once only along a chain. */
  lemma ChainIsDistinct(c: LoggerScope)
    requires c.WellLinked()
    ensures forall i, j :: 0 <= i < j < |Chain(c)| ==> Chain(c)[i] != Chain(c)[j]
  {
    var chain := Chain(c);
    forall i | 0 <= i < |chain|
      ensures |Chain(chain[i])| == |chain| - i
    {
      ChainOfMember(c, i);
    }
  }

  /** Disposing one scope ends the life of the scopes that have it on their path, and of no others. */
  lemma LiveAfterDisposal(scopes: set<LoggerScope>, gone: set<LoggerScope>, d: LoggerScope)
    ensures forall s :: s in scopes ==> (Live(s, gone + {d}) <==> Live(s, gone) && d !in Chain(s))
  {
  }

  /** The `n`-th scope of a chain is on the chains of the members up to it. */
  lemma OnChainsUpTo(c: LoggerScope, n: nat, k: nat)
    requires c.WellLinked() && n < |Chain(c)| && k < |Chain(c)|
    ensures Chain(c)[n] in Chain(Chain(c)[k]) <==> k <= n
  {
    var chain := Chain(c);
    ChainIsDistinct(c);
    ChainOfMember(c, k);
    if k <= n {
      assert chain[k..][n - k] == chain[n];
    }
  }

  /** Behind the `n`-th scope of a chain stand exactly the members whose own chain avoids it. */
  lemma RestOfChain(c: LoggerScope, n: nat)
    requires c.WellLinked() && n < |Chain(c)|
    ensures forall t :: t in Chain(c)[n + 1..] <==> t in Chain(c) && Chain(c)[n] !in Chain(t)
  {
    var chain := Chain(c);
    forall t | t in chain
      ensures t in chain[n + 1..] <==> chain[n] !in Chain(t)
    {
      var k :| 0 <= k < |chain| && chain[k] == t;
      OnChainsUpTo(c, n, k);
      ChainIsDistinct(c);
      if k > n {
        assert chain[n + 1..][k - n - 1] == t;
      }
    }
  }

  /** A scope off the chain is on no member's chain either. */
  lemma AbsentFromChain(c: LoggerScope?, s: LoggerScope)
    requires c != null ==> c.WellLinked()
    requires s !in Chain(c)
    ensures forall t :: t in Chain(c) ==> s !in Chain(t)
  {
    forall t | t in Chain(c)
      ensures s !in Chain(t)
    {
      var i :| 0 <= i < |Chain(c)| && Chain(c)[i] == t;
      ChainOfMember(c, i);
    }
  }

  // ----- any run -------------------------------------------------------------

  datatype Op = Open(state: ScopeState) | Close(scope: nat)

  function OpenedStates(ops: seq<Op>): seq<ScopeState> {
    if ops == [] then []
    else OpenedStates(ops[..|ops| - 1]) + (if ops[|ops| - 1].Open? then [ops[|ops| - 1].state] else [])
  }

  /** The scope was disposed after it was opened. */
  function Closed(ops: seq<Op>, scope: nat): bool {
    ops != [] &&
    (Closed(ops[..|ops| - 1], scope) ||
     (ops[|ops| - 1].Close? && ops[|ops| - 1].scope == scope < |OpenedStates(ops[..|ops| - 1])|))
  }

  lemma {:induction false} NotYetClosed(ops: seq<Op>, scope: nat)
    requires scope >= |OpenedStates(ops)|
    ensures !Closed(ops, scope)
  {
    if ops == [] {
    } else {
      NotYetClosed(ops[..|ops| - 1], scope);
    }
  }

  /** The provider's scopes are the ones the operations opened, disposed as they say. */
  ghost predicate Matches(all: set<LoggerScope>, gone: set<LoggerScope>, scopes: seq<LoggerScope>, ops: seq<Op>) {
    && all == (set s | s in scopes)
    && |scopes| == |OpenedStates(ops)|
    && (forall j, k :: 0 <= j < k < |scopes| ==> scopes[j] != scopes[k])
    && (forall k :: 0 <= k < |scopes| ==>
          scopes[k].state == OpenedStates(ops)[k] && (scopes[k] in gone <==> Closed(ops, k)))
  }

  lemma OpeningMatches(all: set<LoggerScope>, gone: set<LoggerScope>, scopes: seq<LoggerScope>, ops: seq<Op>,
                       s: LoggerScope)
    requires Matches(all, gone, scopes, ops) && s !in all
    ensures Matches(all + {s}, gone - {s}, scopes + [s], ops + [Open(s.state)])
  {
    assert (ops + [Open(s.state)])[..|ops|] == ops;
    NotYetClosed(ops, |scopes|);
    assert forall k :: 0 <= k < |scopes| ==> scopes[k] in all;
  }

  lemma ClosingMatches(all: set<LoggerScope>, gone: set<LoggerScope>, scopes: seq<LoggerScope>, ops: seq<Op>, n: nat)
    requires Matches(all, gone, scopes, ops)
    ensures Matches(all, if n < |scopes| then gone + {scopes[n]} else gone, scopes, ops + [Close(n)])
  {
    assert (ops + [Close(n)])[..|ops|] == ops;
  }

  method Do(provider: LoggerProvider, scopes: seq<LoggerScope>, ghost before: seq<Op>, op: Op)
    returns (scopes': seq<LoggerScope>)
    requires provider.Valid() && Matches(provider.scopes, provider.gone, scopes, before)
    modifies provider, scopes
    ensures provider.Valid() && Matches(provider.scopes, provider.gone, scopes', before + [op])
    ensures forall k :: 0 <= k < |scopes'| ==> (k < |scopes| && scopes'[k] == scopes[k]) || fresh(scopes'[k])
  {
    scopes' := scopes;
    if op.Open? {
      ghost var all, gone := provider.scopes, provider.gone;
      var scope := new LoggerScope(provider, op.state);
      OpeningMatches(all, gone, scopes, before, scope);
      scopes' := scopes + [scope];
    } else {
      ClosingMatches(provider.scopes, provider.gone, scopes, before, op.scope);
      if op.scope < |scopes| {
        assert scopes[op.scope] in provider.scopes;
        scopes[op.scope].Dispose();
      }
    }
  }

  /**
   Opening scopes and disposing any of them, in any order and any number of times, the chain from
   the current scope is exactly the set of scopes with no disposed scope on their path.
   */
  method Execute(provider: LoggerProvider, ops: seq<Op>) returns (scopes: seq<LoggerScope>)
    requires provider.Valid() && provider.scopes == {}
    modifies provider
    ensures Matches(provider.scopes, provider.gone, scopes, ops)
    ensures provider.Valid()
    ensures forall s :: s in scopes ==> (s in Chain(provider.currentScope) <==> Live(s, provider.gone))
  {
    scopes := [];
    var i := 0;
    while i < |ops|
      invariant 0 <= i <= |ops|
      invariant provider.Valid() && Matches(provider.scopes, provider.gone, scopes, ops[..i])
      invariant forall k :: 0 <= k < |scopes| ==> fresh(scopes[k])
    {
      assert ops[..i + 1] == ops[..i] + [ops[i]];
      scopes := Do(provider, scopes, ops[..i], ops[i]);
      i := i + 1;
    }
    assert ops[..i] == ops;
  }
}
