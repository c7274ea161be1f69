/**
 Invariants of the merged tree: a directory whose base subtree is streamed as a whole
 has no collection and no children, and no path is emitted twice.
 */
module TreeInvariants {
  import opened Wrappers
  import opened PathEscaping
  import opened MergeModel
  import opened BaseTraversal
  import opened TraversalEmission
  import opened CollectionInflation
  import opened HierarchyMerge

  // ---------------------------------------------------------------------------
  // Ancestors of a place
  // ---------------------------------------------------------------------------

  ghost predicate NoLiveFrom(cs: seq<Collection>, p: Elements) {
    forall c :: c in cs && c.Live() && c.fullPath.Some? ==> !(p <= c.fullPath.value)
  }

  ghost predicate HasDirAt(top: BaseDir, names: Elements) {
    exists d :: DirAt(top, names, d)
  }

  lemma {:induction false} DirAtParent(top: BaseDir, names: Elements, d: BaseDir)
    requires names != [] && DirAt(top, names, d)
    ensures HasDirAt(top, names[..|names| - 1])
    decreases |names|
  {
    var i :| DirAtVia(top, names, d, i);
    var init := names[..|names| - 1];
    if |names| == 1 {
      assert DirAt(top, init, top);
    } else {
      DirAtParent(top.entries[i], names[1..], d);
      assert names[1..][..|names| - 2] == init[1..];
      var d' :| DirAt(top.entries[i], init[1..], d');
      assert DirAtVia(top, init, d', i);
      assert DirAt(top, init, d');
    }
  }

  ghost predicate HoldsSome(s: Subtree, p: Elements) {
    exists d :: Holds(s, p, d)
  }

  lemma HoldsParent(s: Subtree, p: Elements, d: BaseDir)
    requires Holds(s, p, d) && s.path < p
    ensures HoldsSome(s, p[..|p| - 1])
  {
    DirAtParent(s.root, p[1..], d);
    assert p[1..][..|p| - 2] == p[..|p| - 1][1..];
    var d' :| DirAt(s.root, p[..|p| - 1][1..], d');
    assert Holds(s, p[..|p| - 1], d');
  }

  /**
   If no collection is placed at or below `q`, then a directory that resolves to a path
   below `q` has an ancestor that resolves to `q` itself.
   */
  lemma {:induction false} AncestorResolves(cs: seq<Collection>, s: Subtree, p: Elements, d: BaseDir, q: Elements)
    requires Holds(s, p, d) && Resolve(cs, s.path, p).Some?
    requires q < Resolve(cs, s.path, p).value && |q| >= |s.path|
    requires NoLiveFrom(cs, q)
    ensures exists p', d' :: Holds(s, p', d') && p' < p && Resolve(cs, s.path, p') == Some(q)
    decreases |p|
  {
    var target := Resolve(cs, s.path, p).value;
    if !Mentioned(cs, p) && p != s.path {
      var parent := p[..|p| - 1];
      HoldsParent(s, p, d);
      var d' :| Holds(s, parent, d');
      var up := Resolve(cs, s.path, parent).value;
      assert target == up + [p[|p| - 1]];
      if q == up {
        assert Holds(s, parent, d') && parent < p;
      } else {
        assert q <= up;
        AncestorResolves(cs, s, parent, d', q);
        var p'', d'' :| Holds(s, p'', d'') && p'' < parent && Resolve(cs, s.path, p'') == Some(q);
        assert p'' < p;
      }
    }
  }

  // ---------------------------------------------------------------------------
  // Streamed directories
  // ---------------------------------------------------------------------------

  predicate Apart(a: Elements, b: Elements) {
    !(a <= b) && !(b <= a)
  }

  /** A streamed directory stands alone: it is a leaf of the tree without a collection. */
  ghost predicate StreamAlone(t: Tree, p: Elements) {
    p in t && !HasChild(t, p) && NoCollectionFrom(t, p)
  }

  ghost predicate StreamsOk(t: Tree, places: set<Place>) {
    forall p :: p in t && t[p].streamBaseEnts ==>
      StreamAlone(t, p) && t[p].baseDir.Some? && StreamedFrom(t[p], p, places)
  }

  ghost predicate StreamedFrom(n: Node, p: Elements, places: set<Place>) {
    exists pl :: pl in places && pl.cur == Some(p) && n.prevPath == Some(pl.oldPath)
  }

  /** No streamed directory was above or below `p` in the base. */
  ghost predicate StreamsApart(t: Tree, p: Elements) {
    forall q :: q in t && t[q].streamBaseEnts ==> t[q].prevPath.Some? && Apart(t[q].prevPath.value, p)
  }

  /** Streamed directories of `t'` were streamed in `t` already, or were at or below `p` in the base. */
  ghost predicate StreamsUnder(t: Tree, t': Tree, p: Elements) {
    forall q :: q in t' && t'[q].streamBaseEnts ==>
      || (q in t && t[q] == t'[q])
      || (t'[q].prevPath.Some? && p <= t'[q].prevPath.value)
  }

  /** Places below a target without collections have an ancestor at that target. */
  ghost predicate Rooted(t: Tree, places: set<Place>) {
    forall pl, q :: pl in places && Above(t, pl, q) ==> HasAncestor(places, pl, q)
  }

  /** `q` is on the way to where `pl` goes, below the prefix of its resource, and has no collection from there on. */
  ghost predicate Above(t: Tree, pl: Place, q: Elements) {
    pl.cur.Some? && q < pl.cur.value && |q| >= 4 && NoCollectionFrom(t, q)
  }

  ghost predicate HasAncestor(places: set<Place>, pl: Place, q: Elements) {
    exists pl' :: pl' in places && pl'.cur == Some(q) && pl'.oldPath < pl.oldPath
  }

  ghost predicate LongTargets(places: set<Place>) {
    forall pl :: pl in places && pl.cur.Some? ==> |pl.cur.value| >= 4
  }

  ghost predicate SameCollections(t: Tree, t': Tree) {
    forall p :: CollectionAt(t', p) == CollectionAt(t, p)
  }

  /** No streamed directory is above the target of a place that was not below it in the base. */
  lemma NotBelowStreamed(t: Tree, places: set<Place>, pl: Place, q: Elements)
    requires StreamsOk(t, places) && Rooted(t, places) && Injective(t, places) && LongTargets(places)
    requires pl in places && pl.cur.Some?
    requires q in t && t[q].streamBaseEnts
    requires t[q].prevPath.Some? ==> !(t[q].prevPath.value < pl.oldPath)
    ensures !(q < pl.cur.value)
  {
    var at :| at in places && at.cur == Some(q) && t[q].prevPath == Some(at.oldPath);
    assert StreamAlone(t, q);
    if q < pl.cur.value {
      assert Above(t, pl, q);
      var pl' :| pl' in places && pl'.cur == Some(q) && pl'.oldPath < pl.oldPath;
      assert SameTarget(at, pl');
    }
  }

  lemma NewKeyMeansAbove(cur: Elements, q: Elements, x: string)
    ensures q + [x] in Prefixes(cur) ==> q < cur
  {
    if q + [x] in Prefixes(cur) {
      var i :| 0 < i <= |cur| && q + [x] == cur[..i];
      assert q == cur[..i - 1];
    }
  }

  lemma NoNewChild(keys: set<Elements>, keys': set<Elements>, cur: Elements, q: Elements)
    requires keys' == keys + Prefixes(cur)
    requires forall x :: q + [x] !in keys
    requires !(q < cur)
    ensures forall x :: q + [x] !in keys'
  {
    forall x
      ensures q + [x] !in keys'
    {
      NewKeyMeansAbove(cur, q, x);
    }
  }

  lemma StaysAlone(t: Tree, t': Tree, cur: Elements, q: Elements)
    requires t'.Keys == t.Keys + Prefixes(cur) && SameCollections(t, t')
    requires q in t' && !HasChild(t, q) && NoCollectionFrom(t, q) && !(q < cur)
    ensures StreamAlone(t', q)
  {
    NoNewChild(t.Keys, t'.Keys, cur, q);
  }

  /** Streamed directories that a new base directory at `pl` was not below in the base. */
  ghost predicate StreamsNotAbove(t: Tree, pl: Place) {
    forall q :: q in t && t[q].streamBaseEnts ==>
      t[q].baseDir.Some? && t[q].prevPath.Some? && !(t[q].prevPath.value < pl.oldPath)
  }

  /** What `AddBase` does: it creates the way to the target, and may set its base directory. */
  ghost predicate BaseAdded(t: Tree, t': Tree, pl: Place, stream: bool)
    requires pl.cur.Some?
  {
    && t'.Keys == t.Keys + Prefixes(pl.cur.value)
    && SameCollections(t, t')
    && (forall q :: q in t' && t'[q].streamBaseEnts ==> StreamOldOrNew(t, t', q, pl, stream))
  }

  /** A streamed directory of the new tree is an old one, or the one just added. */
  ghost predicate StreamOldOrNew(t: Tree, t': Tree, q: Elements, pl: Place, stream: bool)
    requires q in t'
  {
    || (q in t && t[q].streamBaseEnts && t[q] == t'[q])
    || (stream && pl.cur == Some(q) && t'[q].baseDir.Some? && t'[q].prevPath == Some(pl.oldPath))
  }

  lemma AddBaseAdds(m: Mode, t: Tree, pl: Place, stream: bool)
    requires TreeOk(t) && pl.cur.Some? && WellNamed(pl.dir) && AllNonEmpty(pl.oldPath) && AllNonEmpty(pl.cur.value)
    requires forall q :: q in t && t[q].streamBaseEnts ==> t[q].baseDir.Some?
    requires HasFiles(pl.dir.entries) || CollectionAt(t, pl.cur.value).None?
    requires FaithfulParse(m)
    requires AddBase(m, t, pl.oldPath, pl.cur.value, pl.dir, stream).Ok?
    ensures BaseAdded(t, AddBase(m, t, pl.oldPath, pl.cur.value, pl.dir, stream).value, pl, stream)
  {
    var cur := pl.cur.value;
    AddBaseIs(m, t, pl.oldPath, cur, pl.dir, stream);
    AddBaseGrows(m, t, pl.oldPath, cur, pl.dir, stream);
  }

  lemma AddedStream(t: Tree, t': Tree, places: set<Place>, pl: Place, stream: bool, q: Elements)
    requires StreamsOk(t, places) && Rooted(t, places) && Injective(t, places) && LongTargets(places)
    requires pl in places && pl.cur.Some? && StreamsNotAbove(t, pl)
    requires stream ==> !HasChild(t, pl.cur.value) && NoCollectionFrom(t, pl.cur.value)
    requires BaseAdded(t, t', pl, stream)
    requires q in t' && t'[q].streamBaseEnts
    ensures StreamAlone(t', q) && t'[q].baseDir.Some? && StreamedFrom(t'[q], q, places)
  {
    if q in t && t[q].streamBaseEnts && t[q] == t'[q] {
      assert StreamAlone(t, q);
      NotBelowStreamed(t, places, pl, q);
    }
    StaysAlone(t, t', pl.cur.value, q);
  }

  /** Adding a base directory keeps streamed directories alone. */
  lemma AddBaseStreams(m: Mode, t: Tree, places: set<Place>, pl: Place, stream: bool)
    requires TreeOk(t) && StreamsOk(t, places) && Rooted(t, places) && Injective(t, places) && LongTargets(places)
    requires pl in places && pl.cur.Some? && WellNamed(pl.dir) && AllNonEmpty(pl.oldPath) && AllNonEmpty(pl.cur.value)
    requires (HasFiles(pl.dir.entries) || CollectionAt(t, pl.cur.value).None?) && StreamsNotAbove(t, pl)
    requires stream ==> !HasChild(t, pl.cur.value) && NoCollectionFrom(t, pl.cur.value)
    requires FaithfulParse(m)
    requires AddBase(m, t, pl.oldPath, pl.cur.value, pl.dir, stream).Ok?
    ensures StreamsOk(AddBase(m, t, pl.oldPath, pl.cur.value, pl.dir, stream).value, places)
    ensures StreamsUnder(t, AddBase(m, t, pl.oldPath, pl.cur.value, pl.dir, stream).value, pl.oldPath)
  {
    var t' := AddBase(m, t, pl.oldPath, pl.cur.value, pl.dir, stream).value;
    AddBaseAdds(m, t, pl, stream);
    forall q | q in t' && t'[q].streamBaseEnts
      ensures StreamAlone(t', q) && t'[q].baseDir.Some? && StreamedFrom(t'[q], q, places)
    {
      AddedStream(t, t', places, pl, stream, q);
    }
  }

  lemma FinishStreams(m: Mode, t: Tree, places: set<Place>, own: Place, changed: bool)
    requires TreeOk(t) && StreamsOk(t, places) && Rooted(t, places) && Injective(t, places) && LongTargets(places)
    requires own in places && WellNamed(own.dir) && AllNonEmpty(own.oldPath) && OptionNonEmpty(own.cur)
    requires Free(t, {own}) && StreamsNotAbove(t, own)
    requires !changed && own.cur.Some? ==> !HasChild(t, own.cur.value) && NoCollectionFrom(t, own.cur.value)
    requires FaithfulParse(m)
    requires Finish(m, t, own, changed).Ok?
    ensures StreamsOk(Finish(m, t, own, changed).value, places)
    ensures StreamsUnder(t, Finish(m, t, own, changed).value, own.oldPath)
  {
    if own.cur.Some? && (HasFiles(own.dir.entries) || !changed) {
      assert own in {own};
      AddBaseStreams(m, t, places, own, !changed);
    }
  }

  // ---------------------------------------------------------------------------
  // The traversal
  // ---------------------------------------------------------------------------

  lemma TraverseEntriesGrows(m: Mode, depth: nat, u: Updates, oldPath: Elements, cur: Option<Elements>,
                             entries: seq<BaseEntry>, n: nat, t: Tree)
    requires n <= |entries|
    requires TreeOk(t) && UpdatesTyped(u) && AllNonEmpty(oldPath) && OptionNonEmpty(cur) && WellNamedEntries(entries)
    requires Injective(t, PlacesIn(u, oldPath, cur, entries, n)) && Free(t, PlacesIn(u, oldPath, cur, entries, n))
    requires FaithfulParse(m)
    requires TraverseEntries(m, depth, u, oldPath, cur, entries, n, t).Ok?
    ensures Grown(t, TraverseEntries(m, depth, u, oldPath, cur, entries, n, t).value,
        PlacesIn(u, oldPath, cur, entries, n))
  {
    TraverseEntriesEmits(m, depth, u, oldPath, cur, entries, n, t, s => {}, Streamed([], Item("", true, false, 0)));
  }

  /** New streamed directories were below one of the first `n` entries of the directory at `p`. */
  ghost predicate StreamsBelow(t: Tree, t': Tree, p: Elements, entries: seq<BaseEntry>, n: nat)
    requires n <= |entries|
  {
    forall q :: q in t' && t'[q].streamBaseEnts ==>
      || (q in t && t[q] == t'[q])
      || (t'[q].prevPath.Some? && BelowEntry(t'[q].prevPath.value, p, entries, n))
  }

  ghost predicate BelowEntry(prev: Elements, p: Elements, entries: seq<BaseEntry>, n: nat)
    requires n <= |entries|
  {
    p < prev && exists i :: 0 <= i < n && prev[|p|] == entries[i].name
  }

  /** What the invariant needs of a tree and a set of places still to be traversed. */
  ghost predicate Ready(t: Tree, places: set<Place>, todo: set<Place>) {
    && TreeOk(t) && StreamsOk(t, places) && Rooted(t, places) && Injective(t, places) && LongTargets(places)
    && todo <= places && Free(t, todo)
  }

  lemma ReadyFewer(t: Tree, places: set<Place>, todo: set<Place>, more: set<Place>)
    requires Ready(t, places, more) && todo <= more
    ensures Ready(t, places, todo) && Injective(t, todo)
  {
  }

  lemma ReadyNext(t: Tree, t1: Tree, places: set<Place>, before: set<Place>, next: set<Place>)
    requires Ready(t, places, before + next) && before !! next
    requires Grown(t, t1, before) && StreamsOk(t1, places)
    ensures Ready(t1, places, next)
  {
    FreeAfter(t, t1, before, next);
  }

  lemma {:induction false} TraverseStreams(m: Mode, depth: nat, u: Updates, oldParent: Elements,
                                           expected: Option<Elements>, dir: BaseDir, t: Tree, places: set<Place>)
    requires UpdatesTyped(u) && AllNonEmpty(oldParent) && OptionNonEmpty(expected) && WellNamed(dir)
    requires Ready(t, places, Places(u, oldParent, expected, dir))
    requires StreamsApart(t, oldParent + [dir.name])
    requires FaithfulParse(m)
    requires Traverse(m, depth, u, oldParent, expected, dir, t).Ok?
    ensures StreamsOk(Traverse(m, depth, u, oldParent, expected, dir, t).value, places)
    ensures StreamsUnder(t, Traverse(m, depth, u, oldParent, expected, dir, t).value, oldParent + [dir.name])
    decreases dir, 1
  {
    VisitStreams(m, depth, u, t, places, PlaceOf(u, oldParent, expected, dir));
  }

  lemma {:induction false} VisitStreams(m: Mode, depth: nat, u: Updates, t: Tree, places: set<Place>, own: Place)
    requires UpdatesTyped(u) && AllNonEmpty(own.oldPath) && OptionNonEmpty(own.cur) && WellNamed(own.dir)
    requires Ready(t, places, PlacesFrom(u, own))
    requires StreamsApart(t, own.oldPath)
    requires FaithfulParse(m)
    requires Visit(m, depth, u, own, t).Ok?
    ensures StreamsOk(Visit(m, depth, u, own, t).value, places)
    ensures StreamsUnder(t, Visit(m, depth, u, own, t).value, own.oldPath)
    decreases own.dir, 0
  {
    var oldPath, cur, entries := own.oldPath, own.cur, own.dir.entries;
    var rest := PlacesIn(u, oldPath, cur, entries, |entries|);
    if !m.prune || SubtreeChanged(t, u, oldPath, cur) {
      TraverseEntriesStreams(m, depth + 1, u, oldPath, cur, entries, |entries|, t, places);
      PlacesInUnder(u, oldPath, cur, entries, |entries|);
      TraverseEntriesGrows(m, depth + 1, u, oldPath, cur, entries, |entries|, t);
      FinishAfterEntries(m, t, TraverseEntries(m, depth + 1, u, oldPath, cur, entries, |entries|, t).value, places, own,
          rest);
    } else {
      assert own in {own};
      UnchangedStreams(m, u, t, places, own);
    }
  }

  lemma FinishAfterEntries(m: Mode, t: Tree, t1: Tree, places: set<Place>, own: Place, rest: set<Place>)
    requires AllNonEmpty(own.oldPath) && OptionNonEmpty(own.cur) && WellNamed(own.dir)
    requires Ready(t, places, {own} + rest) && StreamsApart(t, own.oldPath)
    requires forall pl :: pl in rest ==> own.oldPath < pl.oldPath
    requires Grown(t, t1, rest) && StreamsOk(t1, places)
    requires StreamsBelow(t, t1, own.oldPath, own.dir.entries, |own.dir.entries|)
    requires FaithfulParse(m)
    requires Finish(m, t1, own, true).Ok?
    ensures StreamsOk(Finish(m, t1, own, true).value, places)
    ensures StreamsUnder(t, Finish(m, t1, own, true).value, own.oldPath)
  {
    assert rest + {own} == {own} + rest;
    ReadyNext(t, t1, places, rest, {own});
    assert own in {own};
    FinishStreams(m, t1, places, own, true);
  }

  lemma UnchangedStreams(m: Mode, u: Updates, t: Tree, places: set<Place>, own: Place)
    requires AllNonEmpty(own.oldPath) && OptionNonEmpty(own.cur) && WellNamed(own.dir)
    requires own in places && Ready(t, places, {own}) && StreamsApart(t, own.oldPath)
    requires !SubtreeChanged(t, u, own.oldPath, own.cur)
    requires FaithfulParse(m)
    requires Finish(m, t, own, false).Ok?
    ensures StreamsOk(Finish(m, t, own, false).value, places)
    ensures StreamsUnder(t, Finish(m, t, own, false).value, own.oldPath)
  {
    if own.cur.Some? {
      var cur := own.cur.value;
      assert |cur| >= 4;
      UnchangedHasNoCollections(t, u, own.oldPath, cur);
      NoChildOfMissing(t, cur);
    }
    FinishStreams(m, t, places, own, false);
  }

  lemma NoChildOfMissing(t: Tree, p: Elements)
    requires PrefixClosed(t) && p != []
    ensures p !in t ==> !HasChild(t, p)
  {
    forall x | p + [x] in t
      ensures p in t
    {
      assert (p + [x])[..|p|] == p;
    }
  }

  lemma {:induction false} TraverseEntriesStreams(m: Mode, depth: nat, u: Updates, oldPath: Elements,
                                                  cur: Option<Elements>,
                                                  entries: seq<BaseEntry>, n: nat, t: Tree, places: set<Place>)
    requires n <= |entries|
    requires UpdatesTyped(u) && AllNonEmpty(oldPath) && OptionNonEmpty(cur) && WellNamedEntries(entries)
    requires Ready(t, places, PlacesIn(u, oldPath, cur, entries, n))
    requires StreamsApart(t, oldPath)
    requires FaithfulParse(m)
    requires TraverseEntries(m, depth, u, oldPath, cur, entries, n, t).Ok?
    ensures StreamsOk(TraverseEntries(m, depth, u, oldPath, cur, entries, n, t).value, places)
    ensures StreamsBelow(t, TraverseEntries(m, depth, u, oldPath, cur, entries, n, t).value, oldPath, entries, n)
    decreases entries, n
  {
    if n > 0 {
      var before := PlacesIn(u, oldPath, cur, entries, n - 1);
      var t1 := TraverseEntries(m, depth, u, oldPath, cur, entries, n - 1, t).value;
      ReadyFewer(t, places, before, PlacesIn(u, oldPath, cur, entries, n));
      TraverseEntriesStreams(m, depth, u, oldPath, cur, entries, n - 1, t, places);
      TraverseEntriesGrows(m, depth, u, oldPath, cur, entries, n - 1, t);
      if entries[n - 1].Directory? {
        var entry := entries[n - 1];
        SiblingsDisjoint(u, oldPath, cur, entries, n - 1);
        assert PlacesIn(u, oldPath, cur, entries, n) == before + Places(u, oldPath, cur, entry);
        assert TraverseEntries(m, depth, u, oldPath, cur, entries, n, t) ==
          Traverse(m, depth, u, oldPath, cur, entry, t1);
        NextEntryStreams(m, depth, u, oldPath, cur, entries, n - 1, t, t1, places, before);
      } else {
        assert PlacesIn(u, oldPath, cur, entries, n) == before;
      }
    }
  }

  lemma {:induction false} NextEntryStreams(m: Mode, depth: nat, u: Updates, oldPath: Elements, cur: Option<Elements>,
                                            entries: seq<BaseEntry>, n: nat, t: Tree, t1: Tree,
                                            places: set<Place>, before: set<Place>)
    requires n < |entries| && entries[n].Directory?
    requires UpdatesTyped(u) && AllNonEmpty(oldPath) && OptionNonEmpty(cur) && WellNamedEntries(entries)
    requires Ready(t, places, before + Places(u, oldPath, cur, entries[n])) &&
      before !! Places(u, oldPath, cur, entries[n])
    requires Grown(t, t1, before) && StreamsOk(t1, places)
    requires StreamsApart(t, oldPath) && StreamsBelow(t, t1, oldPath, entries, n)
    requires FaithfulParse(m)
    requires Traverse(m, depth, u, oldPath, cur, entries[n], t1).Ok?
    ensures StreamsOk(Traverse(m, depth, u, oldPath, cur, entries[n], t1).value, places)
    ensures StreamsBelow(t, Traverse(m, depth, u, oldPath, cur, entries[n], t1).value, oldPath, entries, n + 1)
    decreases entries, n
  {
    var entry := entries[n];
    ReadyNext(t, t1, places, before, Places(u, oldPath, cur, entry));
    TraverseStreams(m, depth, u, oldPath, cur, entry, t1, places);
  }

  // ---------------------------------------------------------------------------
  // All subtrees
  // ---------------------------------------------------------------------------

  ghost predicate StreamsFrom(t: Tree, ss: seq<Subtree>) {
    forall q :: q in t && t[q].streamBaseEnts ==> t[q].prevPath.Some? && InSome(t[q].prevPath.value, ss)
  }

  ghost predicate InSome(p: Elements, ss: seq<Subtree>) {
    exists i :: 0 <= i < |ss| && ss[i].path <= p
  }

  lemma StreamsFromNext(t: Tree, t1: Tree, ss: seq<Subtree>)
    requires ss != [] && StreamsFrom(t, ss[..|ss| - 1]) && StreamsUnder(t, t1, ss[|ss| - 1].path)
    ensures StreamsFrom(t1, ss)
  {
    var init := ss[..|ss| - 1];
    forall q | q in t1 && t1[q].streamBaseEnts
      ensures t1[q].prevPath.Some? && InSome(t1[q].prevPath.value, ss)
    {
      if q in t && t[q] == t1[q] {
        var i :| 0 <= i < |init| && init[i].path <= t[q].prevPath.value;
        assert ss[i] == init[i];
      }
    }
  }

  lemma {:induction false} InflateSubtreesStreams(m: Mode, u: Updates, ss: seq<Subtree>, t: Tree, places: set<Place>)
    requires SubtreesTyped(ss) && UpdatesTyped(u)
    requires Ready(t, places, AllPlaces(u, ss)) && StreamsFrom(t, [])
    requires FaithfulParse(m)
    requires InflateSubtrees(m, u, ss, t).Ok?
    ensures Grown(t, InflateSubtrees(m, u, ss, t).value, AllPlaces(u, ss))
    ensures StreamsOk(InflateSubtrees(m, u, ss, t).value, places)
    ensures StreamsFrom(InflateSubtrees(m, u, ss, t).value, ss)
    decreases |ss|
  {
    if ss != [] {
      var init, s := ss[..|ss| - 1], ss[|ss| - 1];
      var before, here := AllPlaces(u, init), SubtreePlaces(u, s);
      InflateSubtreesStreams(m, u, init, t, places);
      var t1 := InflateSubtrees(m, u, init, t).value;
      SubtreesDisjoint(u, ss);
      assert AllPlaces(u, ss) == before + here;
      ReadyNext(t, t1, places, before, here);
      InflateSubtreeStreams(m, u, s, t1, places);
      var t2 := InflateSubtree(m, u, s, t1).value;
      StreamsFromNext(t1, t2, ss);
      GrownTrans(t, t1, t2, before, here);
    }
  }

  lemma InflateSubtreeStreams(m: Mode, u: Updates, s: Subtree, t: Tree, places: set<Place>)
    requires |s.path| == 4 && AllNonEmpty(s.path) && WellNamed(s.root)
    requires UpdatesTyped(u)
    requires Ready(t, places, SubtreePlaces(u, s)) && StreamsApart(t, s.path)
    requires Injective(t, SubtreePlaces(u, s))
    requires FaithfulParse(m)
    requires InflateSubtree(m, u, s, t).Ok?
    ensures Grown(t, InflateSubtree(m, u, s, t).value, SubtreePlaces(u, s))
    ensures StreamsOk(InflateSubtree(m, u, s, t).value, places)
    ensures StreamsUnder(t, InflateSubtree(m, u, s, t).value, s.path)
  {
    InflateSubtreeEmits(m, u, s, t, name => {}, Streamed([], Item("", true, false, 0)));
    if Nested(s.root, PopFront(s.path)).Found? {
      SubtreeTop(s);
      var top, expected := Nested(s.root, PopFront(s.path)).dir, Some(Parent(NewSubtreePath(u, s.path)));
      TraverseStreams(m, 0, u, Parent(s.path), expected, top, t, places);
    }
  }

  // ---------------------------------------------------------------------------
  // The hypotheses hold for the collection tree
  // ---------------------------------------------------------------------------

  lemma {:induction false} ResolveIsLong(cs: seq<Collection>, root: Elements, p: Elements)
    requires CollectionsTyped(cs) && |root| == 4 && root <= p
    ensures Resolve(cs, root, p).Some? ==> |Resolve(cs, root, p).value| >= 4
    decreases |p|
  {
    if !Mentioned(cs, p) && p != root {
      ResolveIsLong(cs, root, p[..|p| - 1]);
    }
  }

  lemma PlaceIsRooted(t: Tree, u: Updates, cs: seq<Collection>, ss: seq<Subtree>, pl: Place, q: Elements)
    requires InflatedAs(t, u, cs) && CollectionsTyped(cs) && SubtreesTyped(ss)
    requires pl in AllPlaces(u, ss) && Above(t, pl, q)
    ensures HasAncestor(AllPlaces(u, ss), pl, q)
  {
    AllPlacesAre(u, ss, pl);
    var i :| PlaceIn(u, ss, i, pl);
    PlaceIsHeld(t, u, cs, ss[i], pl);
    AncestorResolves(cs, ss[i], pl.oldPath, pl.dir, q);
    var p', d' :| Holds(ss[i], p', d') && p' < pl.oldPath && Resolve(cs, ss[i].path, p') == Some(q);
    var pl' := Place(p', Some(q), d');
    HeldIsPlace(t, u, cs, ss[i], pl');
    assert PlaceIn(u, ss, i, pl');
    AllPlacesAre(u, ss, pl');
  }

  lemma PlacesAreRooted(t: Tree, u: Updates, cs: seq<Collection>, ss: seq<Subtree>)
    requires InflatedAs(t, u, cs) && CollectionsTyped(cs) && SubtreesTyped(ss)
    ensures Rooted(t, AllPlaces(u, ss)) && LongTargets(AllPlaces(u, ss))
  {
    forall pl, q | pl in AllPlaces(u, ss) && Above(t, pl, q)
      ensures HasAncestor(AllPlaces(u, ss), pl, q)
    {
      PlaceIsRooted(t, u, cs, ss, pl, q);
    }
    forall pl | pl in AllPlaces(u, ss) && pl.cur.Some?
      ensures |pl.cur.value| >= 4
    {
      PlaceIsLong(t, u, cs, ss, pl);
    }
  }

  lemma PlaceIsLong(t: Tree, u: Updates, cs: seq<Collection>, ss: seq<Subtree>, pl: Place)
    requires InflatedAs(t, u, cs) && CollectionsTyped(cs) && SubtreesTyped(ss)
    requires pl in AllPlaces(u, ss) && pl.cur.Some?
    ensures |pl.cur.value| >= 4
  {
    AllPlacesAre(u, ss, pl);
    var i :| PlaceIn(u, ss, i, pl);
    PlaceIsHeld(t, u, cs, ss[i], pl);
    ResolveIsLong(cs, ss[i].path, pl.oldPath);
  }

  // ---------------------------------------------------------------------------
  // Main theorems
  // ---------------------------------------------------------------------------

  ghost predicate LeafStreams(t: Tree) {
    forall p :: p in t && t[p].streamBaseEnts ==> t[p].collection.None? && !HasChild(t, p)
  }

  /**
   The merged tree.  A directory whose base subtree is streamed as a whole has neither a
   collection nor children, and the collections are exactly the live ones, each at its
   full path.
   */
  lemma TreeInvariant(prune: bool, bases: seq<Base>, cs: seq<Collection>)
    requires CollectionsTyped(cs) && SubtreesTyped(AllSubtrees(bases))
    requires InjectiveResolution(cs, AllSubtrees(bases))
    requires InflateTrees(prune, bases, cs).Ok?
    ensures TreeOk(InflateTrees(prune, bases, cs).value)
    ensures LeafStreams(InflateTrees(prune, bases, cs).value)
    ensures forall p, c :: CollectionAt(InflateTrees(prune, bases, cs).value, p) == Some(c) <==> LiveAt(cs, p, c)
  {
    var ss := AllSubtrees(bases);
    var (t, u) := Inflate(cs).value;
    InflateMeans(cs);
    CollectionTreeOk(t, u, cs);
    UpdatesAreTyped(t, u, cs);
    InjectivePlaces(t, u, cs, ss);
    PlacesAreRooted(t, u, cs, ss);
    ReadBackFaithful(prune);
    InflateSubtreesStreams(Mode(prune, ReadBack), u, ss, t, AllPlaces(u, ss));
    var t' := InflateTrees(prune, bases, cs).value;
    StreamsAreLeaves(t', AllPlaces(u, ss));
    forall p, c
      ensures CollectionAt(t', p) == Some(c) <==> LiveAt(cs, p, c)
    {
      GrownCollections(t, t', AllPlaces(u, ss), p);
      LiveAtIsCollectionAt(t, cs, p, c);
    }
  }

  lemma StreamsAreLeaves(t: Tree, places: set<Place>)
    requires StreamsOk(t, places)
    ensures LeafStreams(t)
  {
    forall p | p in t && t[p].streamBaseEnts
      ensures t[p].collection.None? && !HasChild(t, p)
    {
      assert StreamAlone(t, p);
      assert CollectionAt(t, p) == None;
    }
  }

  // ---------------------------------------------------------------------------
  // No path is emitted twice
  // ---------------------------------------------------------------------------

  function NameOf(e: Emitted): string {
    match e
    case Streamed(_, item) => item.id
    case FromBase(_, name, _, _) => name
  }

  ghost predicate SamePath(a: Emitted, b: Emitted) {
    a.dir == b.dir && NameOf(a) == NameOf(b)
  }

  /** A collection delivers each item once. */
  ghost predicate UniqueItems(c: Collection) {
    forall i, j :: i in c.items && j in c.items && i.id == j.id ==> i == j
  }

  /** Where a base file may be emitted: in the directory itself, or further down if it is streamed. */
  ghost predicate EmittedAt(cur: Elements, prev: Elements, dir: BaseDir, stream: bool, names: Elements, d: BaseDir,
                            e: Emitted) {
    && e.FromBase? && e.dir == cur + names && e.prevDir == prev + names
    && DirAt(dir, names, d) && BaseFile(e.name, e.modTime) in d.entries
    && (names != [] ==> stream)
  }

  lemma {:induction false} BaseEmitsAt(cur: Elements, prev: Elements, dir: BaseDir, stream: bool, seen: set<string>,
                                       excl: Excludes, e: Emitted)
    returns (names: Elements, d: BaseDir)
    requires WellNamed(dir) && BaseEmits(cur, prev, dir, stream, seen, excl, e)
    ensures EmittedAt(cur, prev, dir, stream, names, d, e)
    ensures names == [] ==> e.name !in seen
    decreases dir
  {
    if DirEmits(cur, prev, dir, seen, excl, e) {
      names, d := [], dir;
    } else {
      var i :| 0 <= i < |dir.entries| && dir.entries[i].Directory? && SubdirEmits(cur, prev, dir, i, excl, e);
      var sub := dir.entries[i];
      assert WellNamedEntries(dir.entries);
      var rest;
      rest, d := BaseEmitsAt(cur + [sub.name], prev + [sub.name], sub, true, {}, excl, e);
      names := [sub.name] + rest;
      assert names[1..] == rest;
      assert DirAtVia(dir, names, d, i);
      assert cur + [sub.name] + rest == cur + names;
      assert prev + [sub.name] + rest == prev + names;
    }
  }

  ghost predicate ItemsUnique(t: Tree) {
    forall p :: p in t && t[p].collection.Some? ==> UniqueItems(t[p].collection.value)
  }

  /** Where a node's emitted file lies: in the node's directory, or below it if it is streamed. */
  lemma NodeEmitsUnder(t: Tree, p: Elements, excl: Excludes, e: Emitted)
    requires TreeOk(t) && p in t && NodeEmits(t[p], excl, e)
    ensures p <= e.dir && (e.dir != p ==> t[p].streamBaseEnts)
  {
    if !StreamEmits(t[p], e) {
      var n := t[p];
      var names, d := BaseEmitsAt(p, n.prevPath.value, n.baseDir.value, n.streamBaseEnts, Seen(n.collection), excl, e);
    }
  }

  lemma SameNodeTwice(t: Tree, p: Elements, excl: Excludes, a: Emitted, b: Emitted)
    requires TreeOk(t) && ItemsUnique(t) && p in t
    requires NodeEmits(t[p], excl, a) && NodeEmits(t[p], excl, b) && SamePath(a, b)
    requires t[p].streamBaseEnts ==> t[p].collection.None?
    ensures a == b
  {
    var n := t[p];
    StreamedIsNotBase(n, p, excl, a, b);
    StreamedIsNotBase(n, p, excl, b, a);
    if StreamEmits(n, a) {
      assert UniqueItems(n.collection.value);
    } else {
      SameBaseFile(p, n.prevPath.value, n.baseDir.value, n.streamBaseEnts, Seen(n.collection), excl, a, b);
    }
  }

  /** A base file never has the name of a streamed item. */
  lemma StreamedIsNotBase(n: Node, p: Elements, excl: Excludes, a: Emitted, b: Emitted)
    requires n.currentPath == Some(p) && (n.baseDir.Some? ==> WellNamed(n.baseDir.value))
    requires NodeEmits(n, excl, b)
    ensures StreamEmits(n, a) && SamePath(a, b) ==> StreamEmits(n, b)
  {
    if StreamEmits(n, a) && !StreamEmits(n, b) {
      assert a.item.id in Seen(n.collection);
      var names, d := BaseEmitsAt(p, n.prevPath.value, n.baseDir.value, n.streamBaseEnts, Seen(n.collection), excl, b);
      assert b.dir == p <==> names == [];
    }
  }

  lemma SameBaseFile(cur: Elements, prev: Elements, dir: BaseDir, stream: bool, seen: set<string>, excl: Excludes,
                     a: Emitted, b: Emitted)
    requires WellNamed(dir) && SamePath(a, b)
    requires BaseEmits(cur, prev, dir, stream, seen, excl, a) && BaseEmits(cur, prev, dir, stream, seen, excl, b)
    ensures a == b
  {
    var names, d := BaseEmitsAt(cur, prev, dir, stream, seen, excl, a);
    var names', d' := BaseEmitsAt(cur, prev, dir, stream, seen, excl, b);
    assert names == (cur + names)[|cur|..] == (cur + names')[|cur|..] == names';
    DirAtUnique(dir, names, d, d');
    DirAtNonEmpty(dir, names, d);
  }

  /** A node above another node streams nothing, so emitted paths identify the node. */
  lemma EmittingNodesDiffer(t: Tree, p: Elements, q: Elements, excl: Excludes, a: Emitted, b: Emitted)
    requires TreeOk(t) && LeafStreams(t)
    requires p in t && q in t && NodeEmits(t[p], excl, a) && NodeEmits(t[q], excl, b) && a.dir == b.dir
    ensures p == q
  {
    NodeEmitsUnder(t, p, excl, a);
    NodeEmitsUnder(t, q, excl, b);
    if p < q {
      ExtensionMeansChild(t, p, q);
    } else if q < p {
      ExtensionMeansChild(t, q, p);
    }
  }

  /** Every path of the new snapshot has a single source. */
  lemma NoPathTwice(t: Tree, excl: Excludes, a: Emitted, b: Emitted)
    requires TreeOk(t) && LeafStreams(t) && ItemsUnique(t)
    requires Emits(t, excl, a) && Emits(t, excl, b) && SamePath(a, b)
    ensures a == b
  {
    var p :| p in t && NodeEmits(t[p], excl, a);
    var q :| q in t && NodeEmits(t[q], excl, b);
    EmittingNodesDiffer(t, p, q, excl, a, b);
    SameNodeTwice(t, p, excl, a, b);
  }

  /** In the merged snapshot, every path has a single source. */
  lemma MergedHasNoPathTwice(prune: bool, bases: seq<Base>, cs: seq<Collection>, excl: Excludes, a: Emitted, b: Emitted)
    requires CollectionsTyped(cs) && SubtreesTyped(AllSubtrees(bases))
    requires forall c :: c in cs ==> UniqueItems(c)
    requires InjectiveResolution(cs, AllSubtrees(bases))
    requires InflateTrees(prune, bases, cs).Ok?
    requires Emits(InflateTrees(prune, bases, cs).value, excl, a)
    requires Emits(InflateTrees(prune, bases, cs).value, excl, b)
    ensures SamePath(a, b) ==> a == b
  {
    var t := InflateTrees(prune, bases, cs).value;
    TreeInvariant(prune, bases, cs);
    forall p | p in t && t[p].collection.Some?
      ensures UniqueItems(t[p].collection.value)
    {
      assert CollectionAt(t, p) == Some(t[p].collection.value);
      assert LiveAt(cs, p, t[p].collection.value);
    }
    if SamePath(a, b) {
      NoPathTwice(t, excl, a, b);
    }
  }
}
