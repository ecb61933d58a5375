/** `Without`: snapshot the matching items, then remove the first equal item of the list for each. */
module ListWithout {

  function Filter<T>(s: seq<T>, keep: T -> bool): seq<T> {
    if s == [] then []
    else if keep(s[0]) then [s[0]] + Filter(s[1..], keep)
    else Filter(s[1..], keep)
  }

  function Not<T>(p: T -> bool): T -> bool {
    x => !p(x)
  }

  /** `IList.Remove`: the first equal item goes, if there is one. */
  function RemoveFirst<T>(s: seq<T>, same: (T, T) -> bool, item: T): seq<T> {
    if s == [] then [] else if same(s[0], item) then s[1..] else [s[0]] + RemoveFirst(s[1..], same, item)
  }

  function RemoveEach<T>(s: seq<T>, same: (T, T) -> bool, removed: seq<T>): seq<T>
    decreases |removed|
  {
    if removed == [] then s else RemoveEach(RemoveFirst(s, same, removed[0]), same, removed[1..])
  }

  /** The first item equal to this one. */
  ghost predicate FirstAt<T>(s: seq<T>, same: (T, T) -> bool, item: T, i: nat) {
    i < |s| && same(s[i], item) && forall k :: 0 <= k < i ==> !same(s[k], item)
  }

  lemma {:induction false} RemoveFirstTakes<T>(s: seq<T>, same: (T, T) -> bool, item: T, i: nat)
    requires i <= |s| && forall k :: 0 <= k < i ==> !same(s[k], item)
    requires i < |s| ==> same(s[i], item)
    ensures RemoveFirst(s, same, item) == if i < |s| then s[..i] + s[i + 1..] else s
  {
    if i > 0 {
      RemoveFirstTakes(s[1..], same, item, i - 1);
      if i < |s| {
        assert [s[0]] + (s[1..][..i - 1] + s[1..][i..]) == s[..i] + s[i + 1..];
      }
    }
  }

  /** The filter takes the items one by one, in their order. */
  lemma {:induction false} FilterOneMore<T>(s: seq<T>, last: T, p: T -> bool)
    ensures Filter(s + [last], p) == if p(last) then Filter(s, p) + [last] else Filter(s, p)
  {
    if s == [] {
      assert [] + [last] == [last] && [last][1..] == [];
    } else {
      assert (s + [last])[1..] == s[1..] + [last];
      FilterOneMore(s[1..], last, p);
    }
  }

  class List<T(!new)> {
    var items: seq<T>

    constructor (items: seq<T>)
      ensures this.items == items
    {
      this.items := items;
    }

    method Remove(same: (T, T) -> bool, item: T) returns (found: bool)
      modifies this
      ensures items == RemoveFirst(old(items), same, item)
      ensures !found ==> items == old(items)
      ensures found ==> exists i :: 0 <= i < |old(items)| && FirstAt(old(items), same, item, i)
                                    && items == old(items)[..i] + old(items)[i + 1..]
      ensures found <==> exists i :: 0 <= i < |old(items)| && same(old(items)[i], item)
    {
      var i := 0;
      while i < |items| && !same(items[i], item)
        invariant 0 <= i <= |items| && items == old(items)
        invariant forall k :: 0 <= k < i ==> !same(items[k], item)
      {
        i := i + 1;
      }
      found := i < |items|;
      RemoveFirstTakes(items, same, item, i);
      if found {
        assert FirstAt(items, same, item, i);
        items := items[..i] + items[i + 1..];
      }
    }

    /** When the predicate respects equality, what stays is the order-preserving filter. */
    method Without(same: (T, T) -> bool, test: T -> bool)
      modifies this
      ensures items == RemoveEach(old(items), same, Filter(old(items), test))
      ensures Respects(test, same) ==> items == Filter(old(items), Not(test))
    {
      var matches := Filter(items, test);
      var i := 0;
      assert matches[0..] == matches;
      while i < |matches|
        invariant 0 <= i <= |matches|
        invariant RemoveEach(items, same, matches[i..]) == RemoveEach(old(items), same, matches)
      {
        assert matches[i..][1..] == matches[i + 1..];
        var _ := Remove(same, matches[i]);
        i := i + 1;
      }
      if Respects(test, same) {
        RemovingMatchesFilters(old(items), same, test);
      }
    }
  }

  /** The equality holds of an item and itself, and the predicate does not tell equal items apart. */
  ghost predicate Respects<T(!new)>(p: T -> bool, same: (T, T) -> bool) {
    && (forall x :: same(x, x))
    && (forall x, y :: same(x, y) ==> p(x) == p(y))
  }

  /** Removing the first match takes away the first match, and nothing else. */
  lemma {:induction false} FirstMatchGoes<T(!new)>(s: seq<T>, same: (T, T) -> bool, p: T -> bool)
    requires Respects(p, same) && Filter(s, p) != []
    ensures var rest := RemoveFirst(s, same, Filter(s, p)[0]);
            && Filter(rest, p) == Filter(s, p)[1..]
            && Filter(rest, Not(p)) == Filter(s, Not(p))
  {
    var item := Filter(s, p)[0];
    FilterMembers(s, p);
    if p(s[0]) {
      assert item == s[0];
    } else {
      FirstMatchGoes(s[1..], same, p);
      assert RemoveFirst(s, same, item)[1..] == RemoveFirst(s[1..], same, item);
    }
  }

  lemma {:induction false} FilterMembers<T>(s: seq<T>, p: T -> bool)
    ensures forall i :: 0 <= i < |Filter(s, p)| ==> p(Filter(s, p)[i])
  {
    if s == [] {
    } else {
      FilterMembers(s[1..], p);
    }
  }

  lemma {:induction false} RemovingMatchesFilters<T(!new)>(s: seq<T>, same: (T, T) -> bool, p: T -> bool)
    requires Respects(p, same)
    ensures RemoveEach(s, same, Filter(s, p)) == Filter(s, Not(p))
    decreases |Filter(s, p)|
  {
    if Filter(s, p) == [] {
      NoMatchMeansAll(s, p);
    } else {
      FirstMatchGoes(s, same, p);
      RemovingMatchesFilters(RemoveFirst(s, same, Filter(s, p)[0]), same, p);
    }
  }

  lemma {:induction false} NoMatchMeansAll<T>(s: seq<T>, p: T -> bool)
    requires Filter(s, p) == []
    ensures Filter(s, Not(p)) == s
  {
    if s == [] {
    } else {
      NoMatchMeansAll(s[1..], p);
    }
  }

  lemma FilterOfTwo<T>(x: T, y: T, p: T -> bool)
    ensures Filter([x, y], p) == (if p(x) then [x] else []) + (if p(y) then [y] else [])
  {
    assert [x, y][1..] == [y] && [y][1..] == [];
    assert Filter([y], p) == if p(y) then [y] else [];
  }

  /**
   For a reflexive and symmetric equality, `Without` is the filter on every list if and only if
   the predicate respects the equality: a match that equals an earlier item which does not match
   takes that item away instead.
   */
  lemma WithoutIsFilterIffRespectful<T(!new)>(same: (T, T) -> bool, p: T -> bool)
    requires (forall x :: same(x, x)) && forall x, y :: same(x, y) ==> same(y, x)
    ensures (forall s :: RemoveEach(s, same, Filter(s, p)) == Filter(s, Not(p))) <==> Respects(p, same)
  {
    if Respects(p, same) {
      forall s
        ensures RemoveEach(s, same, Filter(s, p)) == Filter(s, Not(p))
      {
        RemovingMatchesFilters(s, same, p);
      }
    } else {
      var x, y :| same(x, y) && p(x) != p(y);
      var hit, other := if p(x) then x else y, if p(x) then y else x;
      var s := [other, hit];
      assert s[1..] == [hit] && [hit][1..] == [];
      FilterOfTwo(other, hit, p);
      FilterOfTwo(other, hit, Not(p));
      assert RemoveFirst(s, same, hit) == [hit];
      assert RemoveEach(s, same, [hit]) == RemoveEach([hit], same, []) == [hit];
      assert RemoveEach(s, same, Filter(s, p)) != Filter(s, Not(p));
    }
  }
}
