/**
 The dirty check of an entity entry: a recursion through non-aggregate references and
 collection items, against reachability of a dirty entry.
 */
module EntityGraph {
  import opened Wrappers

  datatype EntityState = Detached | Unchanged | Deleted | Modified | Added

  /** A reference; its current value may be an aggregate root, and it may have no target entry. */
  datatype Reference = Reference(isAggregate: bool, isModified: bool, target: Option<nat>)

  /** An item of a collection with its entry. */
  datatype Item = Item(isAggregate: bool, entry: nat)

  datatype Collection = Collection(isModified: bool, isLoaded: bool, current: Option<seq<Item>>)

  datatype Entry = Entry(state: EntityState, references: seq<Reference>, collections: seq<Collection>)

  /** The tracked entries by number. */
  type Graph = map<nat, Entry>

  /** The entry is dirty by itself, or unchanged with a dirty link of an included kind. */
  predicate LocallyModified(e: Entry, includeReferences: bool, includeCollections: bool) {
    || e.state == Modified
    || (e.state == Unchanged &&
        ((includeReferences && exists r | r in e.references :: !r.isAggregate && r.isModified) ||
         (includeCollections && exists c | c in e.collections ::
            c.isModified && c.current.Some? && exists o | o in c.current.value :: !o.isAggregate)))
  }

  /** `to` is the target entry of a reference that is followed. */
  predicate Refers(e: Entry, to: nat) {
    exists r | r in e.references :: !r.isAggregate && r.target == Some(to)
  }

  /** `to` is an item that is followed: any loaded collection makes the items of all of them count. */
  predicate Contains(e: Entry, to: nat) {
    && (exists c | c in e.collections :: c.isLoaded)
    && exists c | c in e.collections :: c.current.Some? && exists o | o in c.current.value :: !o.isAggregate && o.entry == to
  }

  predicate Links(e: Entry, to: nat, includeReferences: bool, includeCollections: bool) {
    (includeReferences && Refers(e, to)) || (includeCollections && Contains(e, to))
  }

  ghost predicate Closed(g: Graph) {
    forall x, y :: x in g && Links(g[x], y, true, true) ==> y in g
  }

  /** A walk along followed links. */
  ghost predicate Walk(g: Graph, p: seq<nat>) {
    && (forall i :: 0 <= i < |p| ==> p[i] in g)
    && (forall i :: 0 <= i < |p| - 1 ==> Links(g[p[i]], p[i + 1], true, true))
  }

  /** No walk of at least one step returns to its start. */
  ghost predicate Acyclic(g: Graph) {
    forall p :: Walk(g, p) && |p| >= 2 ==> p[0] != p[|p| - 1]
  }

  /** In an acyclic graph a walk visits no entry twice, so it is no longer than the graph. */
  lemma WalkIsShort(g: Graph, p: seq<nat>)
    requires Acyclic(g) && Walk(g, p)
    ensures |p| <= |g|
  {
    forall i, j | 0 <= i < j < |p|
      ensures p[i] != p[j]
    {
      var cycle := p[i..j + 1];
      assert forall k :: 0 <= k < |cycle| ==> cycle[k] == p[i + k];
      assert Walk(g, cycle);
    }
    DistinctFit(p, g.Keys);
  }

  lemma {:induction false} DistinctFit(p: seq<nat>, s: set<nat>)
    requires forall i, j :: 0 <= i < j < |p| ==> p[i] != p[j]
    requires forall i :: 0 <= i < |p| ==> p[i] in s
    ensures |p| <= |s|
  {
    if p == [] {
    } else {
      var front := p[..|p| - 1];
      DistinctFit(front, s - {p[|p| - 1]});
    }
  }

  lemma WalkExtends(g: Graph, path: seq<nat>, x: nat, y: nat)
    requires x in g && Walk(g, path + [x]) && Closed(g) && Links(g[x], y, true, true)
    ensures Walk(g, path + [x] + [y])
  {
    var p := path + [x] + [y];
    assert forall i :: 0 <= i < |path| ==> (path + [x])[i] == p[i];
    forall i | 0 <= i < |p| - 1
      ensures Links(g[p[i]], p[i + 1], true, true)
    {
      assert i < |path| ==> Links(g[(path + [x])[i]], (path + [x])[i + 1], true, true);
    }
  }

  /**
   `IsEntryModified`. The walk that led to the entry is what makes the recursion end: on an
   acyclic graph it cannot grow beyond the number of entries.
   */
  function IsEntryModified(g: Graph, entry: Option<nat>, includeReferences: bool, includeCollections: bool,
                           ghost path: seq<nat>): bool
    requires Closed(g) && Acyclic(g)
    requires entry.Some? ==> entry.value in g && Walk(g, path + [entry.value])
    decreases |g| - |path|
  {
    if entry.None? then false
    else
      var e := g[entry.value];
      WalkIsShort(g, path + [entry.value]);
      assert forall y :: Links(e, y, true, true) ==> Walk(g, path + [entry.value] + [y]) by {
        forall y | Links(e, y, true, true)
          ensures Walk(g, path + [entry.value] + [y])
        {
          WalkExtends(g, path, entry.value, y);
        }
      }
      if LocallyModified(e, includeReferences, includeCollections) then true
      else
        || (includeReferences &&
            exists r | r in e.references && !r.isAggregate && r.target.Some? ::
              assert Refers(e, r.target.value);
              IsEntryModified(g, r.target, true, true, path + [entry.value]))
        || (includeCollections &&
            exists c | c in e.collections && c.isLoaded ::
              exists d | d in e.collections && d.current.Some? ::
                exists o | o in d.current.value && !o.isAggregate ::
                  assert Contains(e, o.entry);
                  IsEntryModified(g, Some(o.entry), true, true, path + [entry.value]))
  }

  // ----- reachability --------------------------------------------------------

  /** The walk ends in an entry that is dirty by itself. */
  ghost predicate DirtyWalk(g: Graph, p: seq<nat>) {
    p != [] && Walk(g, p) && LocallyModified(g[p[|p| - 1]], true, true)
  }

  /** The entry is dirty by itself, or a walk that starts with one of the included links ends in a dirty entry. */
  ghost predicate ReachesDirty(g: Graph, x: nat, includeReferences: bool, includeCollections: bool)
    requires x in g
  {
    || LocallyModified(g[x], includeReferences, includeCollections)
    || exists p :: DirtyWalk(g, p) && Links(g[x], p[0], includeReferences, includeCollections)
  }

  /** Dirtiness is reached through the entry itself or through the first link of the walk. */
  lemma ReachesThroughALink(g: Graph, x: nat, includeReferences: bool, includeCollections: bool)
    requires Closed(g) && x in g
    ensures ReachesDirty(g, x, includeReferences, includeCollections) <==>
            (LocallyModified(g[x], includeReferences, includeCollections) ||
             exists y :: y in g && Links(g[x], y, includeReferences, includeCollections) && ReachesDirty(g, y, true, true))
  {
    if p :| DirtyWalk(g, p) && Links(g[x], p[0], includeReferences, includeCollections) {
      var y := p[0];
      if |p| > 1 {
        assert DirtyWalk(g, p[1..]) && Links(g[y], p[1..][0], true, true);
      }
      assert y in g && ReachesDirty(g, y, true, true);
    }
    if y :| y in g && Links(g[x], y, includeReferences, includeCollections) && ReachesDirty(g, y, true, true) {
      if LocallyModified(g[y], true, true) {
        assert DirtyWalk(g, [y]);
      } else {
        var p :| DirtyWalk(g, p) && Links(g[y], p[0], true, true);
        assert DirtyWalk(g, [y] + p);
      }
    }
  }

  /**
   On an acyclic graph `IsEntryModified` returns true exactly when an entry that is dirty by
   itself can be reached; the flags govern the first entry only.
   */
  lemma {:induction false} ModifiedIffDirtyIsReachable(g: Graph, x: nat, includeReferences: bool,
                                                       includeCollections: bool,
                                                       path: seq<nat>)
    requires Closed(g) && Acyclic(g) && x in g && Walk(g, path + [x])
    ensures IsEntryModified(g, Some(x), includeReferences, includeCollections, path) <==>
            ReachesDirty(g, x, includeReferences, includeCollections)
    decreases |g| - |path|
  {
    var e := g[x];
    WalkIsShort(g, path + [x]);
    forall y | Links(e, y, true, true)
      ensures y in g && Walk(g, path + [x] + [y])
      ensures IsEntryModified(g, Some(y), true, true, path + [x]) <==> ReachesDirty(g, y, true, true)
    {
      WalkExtends(g, path, x, y);
      ModifiedIffDirtyIsReachable(g, y, true, true, path + [x]);
    }
    ReachesThroughALink(g, x, includeReferences, includeCollections);
    RecursionFollowsLinks(g, x, includeReferences, includeCollections, path);
  }

  /** One unfolding of the recursion asks the linked entries. */
  lemma RecursionFollowsLinks(g: Graph, x: nat, includeReferences: bool, includeCollections: bool, path: seq<nat>)
    requires Closed(g) && Acyclic(g) && x in g && Walk(g, path + [x])
    requires forall y :: Links(g[x], y, true, true) ==> y in g && Walk(g, path + [x] + [y])
    ensures IsEntryModified(g, Some(x), includeReferences, includeCollections, path) <==>
            (LocallyModified(g[x], includeReferences, includeCollections) ||
             exists y :: y in g && Links(g[x], y, includeReferences, includeCollections)
                         && Walk(g, path + [x] + [y]) && IsEntryModified(g, Some(y), true, true, path + [x]))
  {
    if y :| y in g && Links(g[x], y, includeReferences, includeCollections)
            && Walk(g, path + [x] + [y]) && IsEntryModified(g, Some(y), true, true, path + [x]) {
      LinkedEntryIsAsked(g, x, y, includeReferences, includeCollections, path);
    }
  }

  lemma LinkedEntryIsAsked(g: Graph, x: nat, y: nat, includeReferences: bool, includeCollections: bool, path: seq<nat>)
    requires Closed(g) && Acyclic(g) && x in g && y in g && Walk(g, path + [x]) && Walk(g, path + [x] + [y])
    requires Links(g[x], y, includeReferences, includeCollections)
    requires IsEntryModified(g, Some(y), true, true, path + [x])
    ensures IsEntryModified(g, Some(x), includeReferences, includeCollections, path)
  {
    var e := g[x];
    if includeReferences && Refers(e, y) {
      var r :| r in e.references && !r.isAggregate && r.target == Some(y);
    } else {
      var c :| c in e.collections && c.isLoaded;
      var d :| d in e.collections && d.current.Some? && exists o | o in d.current.value :: !o.isAggregate && o.entry == y;
      var o :| o in d.current.value && !o.isAggregate && o.entry == y;
    }
  }

  /**
   The code's links: once any collection of an entry is loaded, the items of all its collections
   are followed, those of collections that are not loaded too.
   */
  lemma UnloadedItemsAreFollowed(g: Graph, x: nat, loaded: Collection, unloaded: Collection, item: Item,
                                 includeReferences: bool, path: seq<nat>)
    requires Closed(g) && Acyclic(g) && x in g && Walk(g, path + [x])
    requires loaded in g[x].collections && loaded.isLoaded
    requires unloaded in g[x].collections && !unloaded.isLoaded && unloaded.current.Some?
    requires item in unloaded.current.value && !item.isAggregate
    ensures item.entry in g && Walk(g, path + [x] + [item.entry])
    ensures IsEntryModified(g, Some(item.entry), true, true, path + [x]) ==> IsEntryModified(g, Some(x), includeReferences, true, path)
  {
    assert Contains(g[x], item.entry);
    WalkExtends(g, path, x, item.entry);
    if IsEntryModified(g, Some(item.entry), true, true, path + [x]) {
      LinkedEntryIsAsked(g, x, item.entry, includeReferences, true, path);
    }
  }

  /** Without a loaded collection no item is followed, whatever the collections hold. */
  lemma NothingLoadedNothingFollowed(g: Graph, x: nat, path: seq<nat>)
    requires Closed(g) && Acyclic(g) && x in g && Walk(g, path + [x])
    requires forall c :: c in g[x].collections ==> !c.isLoaded
    ensures IsEntryModified(g, Some(x), false, true, path) <==> LocallyModified(g[x], false, true)
  {
    ModifiedIffDirtyIsReachable(g, x, false, true, path);
  }

  // ----- one entry, written out ------------------------------------------------

  /**
   What makes an entry modified by itself: its state, or, while it is unchanged, a modified
   reference to no aggregate root, or a modified collection holding an item that is none.
   */
  lemma ModifiedByItself(g: Graph, x: nat, includeReferences: bool, includeCollections: bool, path: seq<nat>)
    requires Closed(g) && Acyclic(g) && x in g && Walk(g, path + [x])
    ensures g[x].state == Modified ==> IsEntryModified(g, Some(x), includeReferences, includeCollections, path)
    ensures g[x].state == Unchanged && includeReferences ==>
              forall r :: r in g[x].references && !r.isAggregate && r.isModified ==>
                IsEntryModified(g, Some(x), includeReferences, includeCollections, path)
    ensures g[x].state == Unchanged && includeCollections ==>
              forall c, o :: c in g[x].collections && c.isModified && c.current.Some? && o in c.current.value && !o.isAggregate ==>
                IsEntryModified(g, Some(x), includeReferences, includeCollections, path)
  {
  }

  /** What makes it modified by one link: a modified target of a reference, or a modified item once a collection is loaded. */
  lemma ModifiedByALink(g: Graph, x: nat, includeReferences: bool, includeCollections: bool, path: seq<nat>)
    requires Closed(g) && Acyclic(g) && x in g && Walk(g, path + [x])
    ensures includeReferences ==>
              forall r :: r in g[x].references && !r.isAggregate && r.target.Some? ==>
                r.target.value in g &&
                (g[r.target.value].state == Modified ==> IsEntryModified(g, Some(x), includeReferences, includeCollections, path))
    ensures includeCollections ==>
              forall loaded, c, o :: loaded in g[x].collections && loaded.isLoaded && c in g[x].collections &&
                                     c.current.Some? && o in c.current.value && !o.isAggregate ==>
                o.entry in g &&
                (g[o.entry].state == Modified ==> IsEntryModified(g, Some(x), includeReferences, includeCollections, path))
  {
    ModifiedIffDirtyIsReachable(g, x, includeReferences, includeCollections, path);
    if includeReferences {
      forall r | r in g[x].references && !r.isAggregate && r.target.Some?
        ensures Links(g[x], r.target.value, includeReferences, includeCollections)
      {
        assert Refers(g[x], r.target.value);
      }
    }
    forall y | Links(g[x], y, includeReferences, includeCollections)
      ensures y in g
      ensures g[y].state == Modified ==> ReachesDirty(g, x, includeReferences, includeCollections)
    {
      assert Links(g[x], y, true, true);
      if g[y].state == Modified {
        assert DirtyWalk(g, [y]);
      }
    }
  }

  /** What leaves it unmodified: nothing of its own, and no followed link. */
  lemma NothingMakesItModified(g: Graph, x: nat, includeReferences: bool, includeCollections: bool, path: seq<nat>)
    requires Closed(g) && Acyclic(g) && x in g && Walk(g, path + [x])
    requires g[x].state != Modified
    requires includeReferences ==>
               forall r :: r in g[x].references ==>
                 r.isAggregate || (r.target.None? && (g[x].state == Unchanged ==> !r.isModified))
    requires includeCollections ==>
               forall c, o :: c in g[x].collections && c.current.Some? && o in c.current.value && !o.isAggregate ==>
                 (g[x].state == Unchanged ==> !c.isModified) && forall d :: d in g[x].collections ==> !d.isLoaded
    ensures !IsEntryModified(g, Some(x), includeReferences, includeCollections, path)
  {
  }

  // ----- against following loaded collections only ----------------------------

  /** `to` is a non-aggregate item of a collection that is itself loaded. */
  predicate LoadedContains(e: Entry, to: nat) {
    exists c | c in e.collections :: c.isLoaded && c.current.Some? && exists o | o in c.current.value :: !o.isAggregate && o.entry == to
  }

  predicate LoadedLinks(e: Entry, to: nat, includeReferences: bool, includeCollections: bool) {
    (includeReferences && Refers(e, to)) || (includeCollections && LoadedContains(e, to))
  }

  /** A walk of references and items of loaded collections to an entry that is dirty by itself. */
  ghost predicate LoadedDirtyWalk(g: Graph, p: seq<nat>) {
    && p != [] && (forall i :: 0 <= i < |p| ==> p[i] in g)
    && (forall i :: 0 <= i < |p| - 1 ==> LoadedLinks(g[p[i]], p[i + 1], true, true))
    && LocallyModified(g[p[|p| - 1]], true, true)
  }

  ghost predicate ReachesDirtyThroughLoaded(g: Graph, x: nat, includeReferences: bool, includeCollections: bool)
    requires x in g
  {
    || LocallyModified(g[x], includeReferences, includeCollections)
    || exists p :: LoadedDirtyWalk(g, p) && LoadedLinks(g[x], p[0], includeReferences, includeCollections)
  }

  /** Every item that the code follows also stands in a loaded collection of the same entry. */
  ghost predicate FollowedItemsAreLoaded(g: Graph) {
    forall x, y :: x in g && Contains(g[x], y) ==> LoadedContains(g[x], y)
  }

  /** Following loaded collections only never finds more than the code does. */
  lemma LoadedWalkIsAWalk(g: Graph, p: seq<nat>)
    requires LoadedDirtyWalk(g, p)
    ensures DirtyWalk(g, p)
  {
    forall i | 0 <= i < |p| - 1
      ensures Links(g[p[i]], p[i + 1], true, true)
    {
      LoadedLinkIsALink(g[p[i]], p[i + 1], true, true);
    }
  }

  lemma LoadedLinkIsALink(e: Entry, to: nat, includeReferences: bool, includeCollections: bool)
    requires LoadedLinks(e, to, includeReferences, includeCollections)
    ensures Links(e, to, includeReferences, includeCollections)
  {
    if includeCollections && LoadedContains(e, to) {
      var c :| c in e.collections && c.isLoaded && c.current.Some? && exists o | o in c.current.value :: !o.isAggregate && o.entry == to;
      assert Contains(e, to);
    }
  }

  /**
   The code finds whatever is dirty through references and loaded collections. It finds nothing
   else as long as every item it follows stands in a loaded collection.
   */
  lemma FindsWhatIsReachedThroughLoaded(g: Graph, x: nat, includeReferences: bool, includeCollections: bool, path: seq<nat>)
    requires Closed(g) && Acyclic(g) && x in g && Walk(g, path + [x])
    ensures ReachesDirtyThroughLoaded(g, x, includeReferences, includeCollections) ==>
              IsEntryModified(g, Some(x), includeReferences, includeCollections, path)
    ensures FollowedItemsAreLoaded(g) && IsEntryModified(g, Some(x), includeReferences, includeCollections, path) ==>
              ReachesDirtyThroughLoaded(g, x, includeReferences, includeCollections)
  {
    ModifiedIffDirtyIsReachable(g, x, includeReferences, includeCollections, path);
    if !LocallyModified(g[x], includeReferences, includeCollections) {
      if p :| LoadedDirtyWalk(g, p) && LoadedLinks(g[x], p[0], includeReferences, includeCollections) {
        LoadedWalkIsAWalk(g, p);
        LoadedLinkIsALink(g[x], p[0], includeReferences, includeCollections);
      }
      if FollowedItemsAreLoaded(g) {
        if p :| DirtyWalk(g, p) && Links(g[x], p[0], includeReferences, includeCollections) {
          assert LoadedDirtyWalk(g, p);
        }
      }
    }
  }

  const LOADED := Collection(false, true, None)
  const UNLOADED := Collection(false, false, Some([Item(false, 1)]))

  /** An unchanged entry with a loaded collection of null and an unloaded one whose item is modified. */
  const EXAMPLE: Graph := map[0 := Entry(Unchanged, [], [LOADED, UNLOADED]), 1 := Entry(Modified, [], [])]

  lemma ExampleLinks()
    ensures Contains(EXAMPLE[0], 1)
    ensures forall x, y :: x in EXAMPLE && Links(EXAMPLE[x], y, true, true) ==> x == 0 && y == 1
    ensures forall y :: !LoadedLinks(EXAMPLE[0], y, true, true)
  {
    var e := EXAMPLE[0];
    assert e.collections[0] == LOADED && e.collections[1] == UNLOADED && UNLOADED.current.value[0] == Item(false, 1);
    forall y
      ensures !LoadedLinks(e, y, true, true)
    {
      assert forall c :: c in e.collections ==> c == LOADED || c == UNLOADED;
    }
  }

  lemma ExampleIsAcyclic()
    ensures Closed(EXAMPLE) && Acyclic(EXAMPLE)
  {
    ExampleLinks();
    forall p | Walk(EXAMPLE, p) && |p| >= 2
      ensures p[0] != p[|p| - 1]
    {
      var last := |p| - 2;
      assert Links(EXAMPLE[p[0]], p[1], true, true) && Links(EXAMPLE[p[last]], p[last + 1], true, true);
    }
  }

  /** The entry counts as modified, though nothing dirty is reached through its loaded collection. */
  lemma UnloadedItemMakesItModified()
    ensures Closed(EXAMPLE) && Acyclic(EXAMPLE) && Walk(EXAMPLE, [] + [0])
    ensures IsEntryModified(EXAMPLE, Some(0), true, true, [])
    ensures !ReachesDirtyThroughLoaded(EXAMPLE, 0, true, true)
  {
    ExampleIsAcyclic();
    ExampleLinks();
    assert [] + [0] == [0];
    UnloadedItemsAreFollowed(EXAMPLE, 0, LOADED, UNLOADED, Item(false, 1), true, []);
  }
}
