/**
 What `traverseBaseDir` emits: the files that should come from the base, whether or not it prunes.
 */
module TraversalEmission {
  import opened Wrappers
  import opened PathEscaping
  import opened MergeModel
  import opened BaseTraversal

  ghost predicate OptionNonEmpty(p: Option<Elements>) {
    p.Some? ==> AllNonEmpty(p.value)
  }

  /** New paths of collections are typed paths: their elements are not empty. */
  ghost predicate UpdatesTyped(u: Updates) {
    forall k :: k in u ==> OptionNonEmpty(u[k].p)
  }

  ghost predicate Free(t: Tree, places: set<Place>) {
    forall pl :: pl in places && Attaches(t, pl) ==> BaseAt(t, pl.cur.value) == None
  }

  // ---------------------------------------------------------------------------
  // One node
  // ---------------------------------------------------------------------------

  lemma WithNodeGrows(t: Tree, p: Elements)
    requires TreeOk(t)
    ensures Grown(t, WithNode(t, p), {})
  {
    WithNodePrefixClosed(t, p);
  }

  lemma SetBaseEmits(t: Tree, p: Elements, n: Node, excl: Excludes, e: Emitted)
    requires TreeOk(t) && p in t && t[p].baseDir.None?
    requires n.collection == t[p].collection && n.currentPath == Some(p)
    requires n.baseDir.Some? && n.prevPath.Some?
    ensures Emits(t[p := n], excl, e) <==>
      || Emits(t, excl, e)
      || BaseEmits(p, n.prevPath.value, n.baseDir.value, n.streamBaseEnts, Seen(n.collection), excl, e)
  {
    var t' := t[p := n];
    assert StreamEmits(n, e) <==> StreamEmits(t[p], e);
    if Emits(t, excl, e) {
      var q :| q in t && NodeEmits(t[q], excl, e);
      assert q in t' && NodeEmits(t'[q], excl, e);
    }
    if Emits(t', excl, e) {
      var q :| q in t' && NodeEmits(t'[q], excl, e);
      if q != p {
        assert q in t && NodeEmits(t[q], excl, e);
      } else if StreamEmits(n, e) {
        assert NodeEmits(t[p], excl, e);
      }
    }
    if BaseEmits(p, n.prevPath.value, n.baseDir.value, n.streamBaseEnts, Seen(n.collection), excl, e) {
      assert p in t' && NodeEmits(t'[p], excl, e);
    }
  }

  lemma AddBaseIs(m: Mode, t: Tree, oldPath: Elements, cur: Elements, dir: BaseDir, stream: bool)
    requires AllNonEmpty(oldPath) && AllNonEmpty(cur)
    requires FaithfulParse(m)
    requires AddBase(m, t, oldPath, cur, dir, stream).Ok?
    ensures AddBase(m, t, oldPath, cur, dir, stream) == Ok(
      var t1 := WithNode(t, cur);
      if Skips(t1, cur) then t1
      else t1[cur := t1[cur].(baseDir := Some(dir), currentPath := Some(cur), prevPath :=
          Some(oldPath), streamBaseEnts := stream)])
  {
  }

  lemma AddBaseGrows(m: Mode, t: Tree, oldPath: Elements, cur: Elements, dir: BaseDir, stream: bool)
    requires TreeOk(t) && WellNamed(dir) && AllNonEmpty(oldPath) && AllNonEmpty(cur)
    requires FaithfulParse(m)
    requires HasFiles(dir.entries) || CollectionAt(t, cur).None?
    requires AddBase(m, t, oldPath, cur, dir, stream).Ok?
    ensures Grown(t, AddBase(m, t, oldPath, cur, dir, stream).value, {Place(oldPath, Some(cur), dir)})
  {
    var own, t1 := Place(oldPath, Some(cur), dir), WithNode(t, cur);
    AddBaseIs(m, t, oldPath, cur, dir, stream);
    WithNodeGrows(t, cur);
    GrownMore(t, t1, {}, {own});
    if !Skips(t1, cur) {
      assert own in {own};
      var n :=
        t1[cur].(baseDir := Some(dir), currentPath := Some(cur), prevPath := Some(oldPath), streamBaseEnts := stream);
      GrownTrans(t, t1, t1[cur := n], {own}, {own});
      assert {own} + {own} == {own};
    }
  }

  lemma AddBaseEmits(m: Mode, t: Tree, oldPath: Elements, cur: Elements, dir: BaseDir, stream: bool, excl: Excludes,
                     e: Emitted)
    requires TreeOk(t) && AllNonEmpty(oldPath) && AllNonEmpty(cur)
    requires !Skips(t, cur) ==> BaseAt(t, cur) == None
    requires FaithfulParse(m)
    requires AddBase(m, t, oldPath, cur, dir, stream).Ok?
    ensures Emits(AddBase(m, t, oldPath, cur, dir, stream).value, excl, e) <==>
      || Emits(t, excl, e)
      || (!Skips(t, cur) && BaseEmits(cur, oldPath, dir, stream, Seen(CollectionAt(t, cur)), excl, e))
  {
    WithNodeGrows(t, cur);
    var t1 := WithNode(t, cur);
    GrownCollections(t, t1, {}, cur);
    AddBaseIs(m, t, oldPath, cur, dir, stream);
    if !Skips(t1, cur) {
      var n :=
        t1[cur].(baseDir := Some(dir), currentPath := Some(cur), prevPath := Some(oldPath), streamBaseEnts := stream);
      SetBaseEmits(t1, cur, n, excl, e);
    }
  }

  // ---------------------------------------------------------------------------
  // Places
  // ---------------------------------------------------------------------------

  lemma {:induction false} PlacesUnder(u: Updates, oldParent: Elements, expected: Option<Elements>, dir: BaseDir)
    requires WellNamed(dir)
    ensures forall pl :: pl in Places(u, oldParent, expected, dir) ==> oldParent + [dir.name] <= pl.oldPath
    decreases dir, 0
  {
    var oldPath := oldParent + [dir.name];
    PlacesInUnder(u, oldPath, Resolved(u, oldPath, expected, dir.name), dir.entries, |dir.entries|);
  }

  lemma {:induction false} PlacesInUnder(u: Updates, oldPath: Elements, cur: Option<Elements>, entries: seq<BaseEntry>,
                                         n: nat)
    requires n <= |entries| && WellNamedEntries(entries)
    ensures forall pl :: pl in PlacesIn(u, oldPath, cur, entries, n) ==> oldPath < pl.oldPath
    ensures forall pl :: pl in PlacesIn(u, oldPath, cur, entries, n) ==>
      exists i :: 0 <= i < n && entries[i].Directory? && pl.oldPath[|oldPath|] == entries[i].name
    decreases entries, n
  {
    if n > 0 {
      PlacesInUnder(u, oldPath, cur, entries, n - 1);
      if entries[n - 1].Directory? {
        PlacesUnder(u, oldPath, cur, entries[n - 1]);
      }
    }
  }

  /** The directories below different siblings are different directories. */
  lemma SiblingsDisjoint(u: Updates, oldPath: Elements, cur: Option<Elements>, entries: seq<BaseEntry>, n: nat)
    requires n < |entries| && WellNamedEntries(entries) && entries[n].Directory?
    ensures PlacesIn(u, oldPath, cur, entries, n) !! Places(u, oldPath, cur, entries[n])
  {
    PlacesInUnder(u, oldPath, cur, entries, n);
    PlacesUnder(u, oldPath, cur, entries[n]);
    assert forall i :: 0 <= i < n ==> DifferentNames(entries[i], entries[n]);
  }

  lemma FreeAfter(t: Tree, t1: Tree, a: set<Place>, b: set<Place>)
    requires Grown(t, t1, a) && a !! b && Injective(t, a + b) && Free(t, b)
    ensures Free(t1, b) && Injective(t1, b)
  {
    forall pl | pl in b && Attaches(t1, pl)
      ensures BaseAt(t1, pl.cur.value) == None
    {
      SameAttaches(t, t1, a, pl);
      assert pl in a + b;
      assert forall pl' :: pl' in a ==> pl' in a + b && pl' != pl && (SameTarget(pl, pl') ==> !Attaches(t, pl'));
      assert !Targets(t, a, pl.cur.value);
    }
    forall x, y | x in b && y in b && SameTarget(x, y) && Attaches(t1, x) && Attaches(t1, y)
      ensures x == y
    {
      SameAttaches(t, t1, a, x);
      SameAttaches(t, t1, a, y);
      assert x in a + b && y in a + b;
    }
  }

  // ---------------------------------------------------------------------------
  // Pruned subtrees
  // ---------------------------------------------------------------------------

  /** No update mentions anything strictly below `p`, as far as the string test can tell. */
  ghost predicate NothingBelow(u: Updates, p: Elements) {
    forall k :: k in u ==> !StrictStringPrefix(Print(p), k)
  }

  lemma NothingBelowChild(u: Updates, p: Elements, name: string)
    requires NothingBelow(u, p) && p != []
    ensures Print(p + [name]) !in u && NothingBelow(u, p + [name])
  {
    ElementPrefixIsStringPrefix(p, p + [name]);
    forall k | k in u
      ensures !StrictStringPrefix(Print(p + [name]), k)
    {
    }
  }

  ghost predicate NoCollectionFrom(t: Tree, p: Elements) {
    forall q :: p <= q ==> CollectionAt(t, q) == None
  }

  /** Streaming an untouched directory emits what its places should emit. */
  lemma {:induction false} PrunedPlaces(u: Updates, oldParent: Elements, expected: Option<Elements>, dir: BaseDir,
                                        t: Tree, excl: Excludes, e: Emitted)
    requires WellNamed(dir)
    requires Print(oldParent + [dir.name]) !in u && NothingBelow(u, oldParent + [dir.name])
    requires expected.Some? ==> NoCollectionFrom(t, expected.value + [dir.name])
    ensures PlacesEmit(t, excl, Places(u, oldParent, expected, dir), e) <==>
      expected.Some? && BaseEmits(expected.value + [dir.name], oldParent + [dir.name], dir, true, {}, excl, e)
    decreases dir, 1
  {
    var oldPath := oldParent + [dir.name];
    var cur := if expected.Some? then Some(expected.value + [dir.name]) else None;
    assert PlaceOf(u, oldParent, expected, dir) == Place(oldPath, cur, dir);
    PrunedSubtree(u, Place(oldPath, cur, dir), t, excl, e);
  }

  lemma PlacesEmitUnion(t: Tree, excl: Excludes, a: set<Place>, b: set<Place>, e: Emitted)
    ensures PlacesEmit(t, excl, a + b, e) <==> PlacesEmit(t, excl, a, e) || PlacesEmit(t, excl, b, e)
  {
    if PlacesEmit(t, excl, a, e) {
      var pl :| pl in a && PlaceEmits(t, excl, pl, e);
      assert pl in a + b;
    }
    if PlacesEmit(t, excl, b, e) {
      var pl :| pl in b && PlaceEmits(t, excl, pl, e);
      assert pl in a + b;
    }
  }

  /** The same for a directory whose own new path may have been given explicitly. */
  lemma {:induction false} PrunedSubtree(u: Updates, own: Place, t: Tree, excl: Excludes, e: Emitted)
    requires WellNamedEntries(own.dir.entries) && own.oldPath != []
    requires NothingBelow(u, own.oldPath)
    requires own.cur.Some? ==> NoCollectionFrom(t, own.cur.value)
    ensures PlacesEmit(t, excl, PlacesFrom(u, own), e) <==>
      own.cur.Some? && BaseEmits(own.cur.value, own.oldPath, own.dir, true, {}, excl, e)
    decreases own.dir, 0
  {
    var oldPath, cur, dir := own.oldPath, own.cur, own.dir;
    var rest := PlacesIn(u, oldPath, cur, dir.entries, |dir.entries|);
    PlacesEmitUnion(t, excl, {own}, rest, e);
    PrunedEntries(u, oldPath, cur, dir.entries, |dir.entries|, t, excl, e);
    if cur.Some? {
      assert CollectionAt(t, cur.value) == None;
      SubdirsAreEntries(cur.value, oldPath, dir, excl, e);
    }
  }

  lemma SubdirsAreEntries(cur: Elements, prev: Elements, dir: BaseDir, excl: Excludes, e: Emitted)
    ensures SubdirsEmit(cur, prev, dir, excl, e) <==> EntriesEmit(cur, prev, dir.entries, |dir.entries|, excl, e)
  {
    if SubdirsEmit(cur, prev, dir, excl, e) {
      var i :| 0 <= i < |dir.entries| && dir.entries[i].Directory? && SubdirEmits(cur, prev, dir, i, excl, e);
      assert EntryEmits(cur, prev, dir.entries[i], excl, e);
    }
    if EntriesEmit(cur, prev, dir.entries, |dir.entries|, excl, e) {
      var i :| 0 <= i < |dir.entries| && EntryEmits(cur, prev, dir.entries[i], excl, e);
      assert SubdirEmits(cur, prev, dir, i, excl, e);
    }
  }

  ghost predicate EntryEmits(cur: Elements, prev: Elements, entry: BaseEntry, excl: Excludes, e: Emitted) {
    entry.Directory? && BaseEmits(Extend(cur, entry.name), Extend(prev, entry.name), entry, true, {}, excl, e)
  }

  ghost predicate EntriesEmit(cur: Elements, prev: Elements, entries: seq<BaseEntry>, n: nat, excl: Excludes,
                              e: Emitted)
    requires n <= |entries|
  {
    exists i :: 0 <= i < n && EntryEmits(cur, prev, entries[i], excl, e)
  }

  lemma {:induction false} PrunedEntries(u: Updates, oldPath: Elements, cur: Option<Elements>, entries: seq<BaseEntry>,
                                         n: nat, t: Tree, excl: Excludes, e: Emitted)
    requires n <= |entries| && WellNamedEntries(entries) && oldPath != []
    requires NothingBelow(u, oldPath)
    requires cur.Some? ==> NoCollectionFrom(t, cur.value)
    ensures PlacesEmit(t, excl, PlacesIn(u, oldPath, cur, entries, n), e) <==>
      cur.Some? && EntriesEmit(cur.value, oldPath, entries, n, excl, e)
    decreases entries, n
  {
    if n > 0 {
      PrunedEntries(u, oldPath, cur, entries, n - 1, t, excl, e);
      var entry := entries[n - 1];
      if entry.Directory? {
        NothingBelowChild(u, oldPath, entry.name);
        PrunedPlaces(u, oldPath, cur, entry, t, excl, e);
        PlacesEmitUnion(t, excl, PlacesIn(u, oldPath, cur, entries, n - 1), Places(u, oldPath, cur, entry), e);
      }
      if cur.Some? {
        EntriesEmitSnoc(cur.value, oldPath, entries, n, excl, e);
      }
    }
  }

  lemma EntriesEmitSnoc(cur: Elements, prev: Elements, entries: seq<BaseEntry>, n: nat, excl: Excludes, e: Emitted)
    requires 0 < n <= |entries|
    ensures EntriesEmit(cur, prev, entries, n, excl, e) <==>
      EntriesEmit(cur, prev, entries, n - 1, excl, e) || EntryEmits(cur, prev, entries[n - 1], excl, e)
  {
    if EntriesEmit(cur, prev, entries, n - 1, excl, e) {
      var i :| 0 <= i < n - 1 && EntryEmits(cur, prev, entries[i], excl, e);
      assert 0 <= i < n && EntryEmits(cur, prev, entries[i], excl, e);
    } else if EntriesEmit(cur, prev, entries, n, excl, e) {
      var i :| 0 <= i < n && EntryEmits(cur, prev, entries[i], excl, e);
      assert i == n - 1;
    }
  }

  lemma ExtensionMeansChild(t: Tree, p: Elements, q: Elements)
    requires PrefixClosed(t) && p != [] && p <= q
    ensures q in t ==> p in t && (q != p ==> HasChild(t, p))
  {
    if q in t {
      PrefixInTree(t, p, q);
      if q != p {
        var child := q[..|p| + 1];
        assert child == p + [q[|p|]];
        PrefixInTree(t, child, q);
      }
    }
  }

  /** An unchanged subtree has no collection at or below its new path. */
  lemma UnchangedHasNoCollections(t: Tree, u: Updates, oldPath: Elements, cur: Elements)
    requires TreeOk(t) && cur != [] && !SubtreeChanged(t, u, oldPath, Some(cur))
    ensures NoCollectionFrom(t, cur)
  {
    forall q | cur <= q
      ensures CollectionAt(t, q) == None
    {
      ExtensionMeansChild(t, cur, q);
    }
  }

  // ---------------------------------------------------------------------------
  // The traversal
  // ---------------------------------------------------------------------------

  lemma FinishEmits(m: Mode, t: Tree, own: Place, excl: Excludes, e: Emitted)
    requires TreeOk(t) && WellNamed(own.dir) && AllNonEmpty(own.oldPath) && OptionNonEmpty(own.cur)
    requires Free(t, {own})
    requires FaithfulParse(m)
    requires Finish(m, t, own, true).Ok?
    ensures Grown(t, Finish(m, t, own, true).value, {own})
    ensures Emits(Finish(m, t, own, true).value, excl, e) <==> Emits(t, excl, e) || PlaceEmits(t, excl, own, e)
  {
    assert own in {own};
    if own.cur.Some? && HasFiles(own.dir.entries) {
      AddBaseGrows(m, t, own.oldPath, own.cur.value, own.dir, false);
      AddBaseEmits(m, t, own.oldPath, own.cur.value, own.dir, false, excl, e);
    } else {
    }
  }

  lemma {:induction false} TraverseEmits(m: Mode, depth: nat, u: Updates, oldParent: Elements,
                                         expected: Option<Elements>, dir: BaseDir, t: Tree, excl: Excludes, e: Emitted)
    requires TreeOk(t) && UpdatesTyped(u) && AllNonEmpty(oldParent) && OptionNonEmpty(expected) && WellNamed(dir)
    requires Injective(t, Places(u, oldParent, expected, dir)) && Free(t, Places(u, oldParent, expected, dir))
    requires FaithfulParse(m)
    requires Traverse(m, depth, u, oldParent, expected, dir, t).Ok?
    ensures Grown(t, Traverse(m, depth, u, oldParent, expected, dir, t).value, Places(u, oldParent, expected, dir))
    ensures Emits(Traverse(m, depth, u, oldParent, expected, dir, t).value, excl, e) <==>
      Emits(t, excl, e) || PlacesEmit(t, excl, Places(u, oldParent, expected, dir), e)
    decreases dir, 1
  {
    VisitEmits(m, depth, u, PlaceOf(u, oldParent, expected, dir), t, excl, e);
  }

  lemma {:induction false} VisitEmits(m: Mode, depth: nat, u: Updates, own: Place, t: Tree, excl: Excludes, e: Emitted)
    requires TreeOk(t) && UpdatesTyped(u) && WellNamed(own.dir)
    requires AllNonEmpty(own.oldPath) && own.oldPath != [] && OptionNonEmpty(own.cur)
    requires Injective(t, PlacesFrom(u, own)) && Free(t, PlacesFrom(u, own))
    requires FaithfulParse(m)
    requires Visit(m, depth, u, own, t).Ok?
    ensures Grown(t, Visit(m, depth, u, own, t).value, PlacesFrom(u, own))
    ensures Emits(Visit(m, depth, u, own, t).value, excl, e) <==>
      Emits(t, excl, e) || PlacesEmit(t, excl, PlacesFrom(u, own), e)
    decreases own.dir, 0
  {
    var oldPath, cur, entries := own.oldPath, own.cur, own.dir.entries;
    var rest := PlacesIn(u, oldPath, cur, entries, |entries|);
    if !m.prune || SubtreeChanged(t, u, oldPath, cur) {
      TraverseEntriesEmits(m, depth + 1, u, oldPath, cur, entries, |entries|, t, excl, e);
      var t1 := TraverseEntries(m, depth + 1, u, oldPath, cur, entries, |entries|, t).value;
      PlacesInUnder(u, oldPath, cur, entries, |entries|);
      ChangedEmits(m, own, t, t1, rest, excl, e);
    } else {
      UnchangedEmits(m, u, own, t, excl, e);
      GrownMore(t, Finish(m, t, own, false).value, {own}, {own} + rest);
    }
  }

  /** After the subdirectories, whose places are `rest`, a changed directory adds its own files. */
  lemma ChangedEmits(m: Mode, own: Place, t: Tree, t1: Tree, rest: set<Place>, excl: Excludes, e: Emitted)
    requires AllNonEmpty(own.oldPath) && OptionNonEmpty(own.cur) && WellNamed(own.dir)
    requires forall pl :: pl in rest ==> own.oldPath < pl.oldPath
    requires Injective(t, {own} + rest) && Free(t, {own})
    requires Grown(t, t1, rest)
    requires Emits(t1, excl, e) <==> Emits(t, excl, e) || PlacesEmit(t, excl, rest, e)
    requires FaithfulParse(m)
    requires Finish(m, t1, own, true).Ok?
    ensures Grown(t, Finish(m, t1, own, true).value, {own} + rest)
    ensures Emits(Finish(m, t1, own, true).value, excl, e) <==>
      Emits(t, excl, e) || PlacesEmit(t, excl, {own} + rest, e)
  {
    assert rest !! {own};
    assert rest + {own} == {own} + rest;
    FreeAfter(t, t1, rest, {own});
    FinishEmits(m, t1, own, excl, e);
    GrownTrans(t, t1, Finish(m, t1, own, true).value, rest, {own});
    SameExpectation(t, t1, rest, excl, {own}, e);
    PlacesEmitUnion(t, excl, rest, {own}, e);
  }

  lemma UnchangedEmits(m: Mode, u: Updates, own: Place, t: Tree, excl: Excludes, e: Emitted)
    requires TreeOk(t) && AllNonEmpty(own.oldPath) && own.oldPath != [] && OptionNonEmpty(own.cur) && WellNamed(own.dir)
    requires Free(t, {own})
    requires !SubtreeChanged(t, u, own.oldPath, own.cur)
    requires FaithfulParse(m)
    requires Finish(m, t, own, false).Ok?
    ensures Grown(t, Finish(m, t, own, false).value, {own})
    ensures Emits(Finish(m, t, own, false).value, excl, e) <==>
      Emits(t, excl, e) || PlacesEmit(t, excl, PlacesFrom(u, own), e)
  {
    assert own in {own};
    if own.cur.Some? {
      var cur := own.cur.value;
      UnchangedHasNoCollections(t, u, own.oldPath, cur);
      assert CollectionAt(t, cur) == None;
      AddBaseGrows(m, t, own.oldPath, cur, own.dir, true);
      AddBaseEmits(m, t, own.oldPath, cur, own.dir, true, excl, e);
    }
    PrunedSubtree(u, own, t, excl, e);
  }

  lemma {:induction false} TraverseEntriesEmits(m: Mode, depth: nat, u: Updates, oldPath: Elements,
                                                cur: Option<Elements>,
                                                entries: seq<BaseEntry>, n: nat, t: Tree, excl: Excludes, e: Emitted)
    requires n <= |entries|
    requires TreeOk(t) && UpdatesTyped(u) && AllNonEmpty(oldPath) && OptionNonEmpty(cur) && WellNamedEntries(entries)
    requires Injective(t, PlacesIn(u, oldPath, cur, entries, n)) && Free(t, PlacesIn(u, oldPath, cur, entries, n))
    requires FaithfulParse(m)
    requires TraverseEntries(m, depth, u, oldPath, cur, entries, n, t).Ok?
    ensures Grown(t, TraverseEntries(m, depth, u, oldPath, cur, entries, n, t).value,
        PlacesIn(u, oldPath, cur, entries, n))
    ensures Emits(TraverseEntries(m, depth, u, oldPath, cur, entries, n, t).value, excl, e) <==>
      Emits(t, excl, e) || PlacesEmit(t, excl, PlacesIn(u, oldPath, cur, entries, n), e)
    decreases entries, n
  {
    if n > 0 {
      var before := PlacesIn(u, oldPath, cur, entries, n - 1);
      TraverseEntriesEmits(m, depth, u, oldPath, cur, entries, n - 1, t, excl, e);
      if entries[n - 1].Directory? {
        var entry, t1 := entries[n - 1], TraverseEntries(m, depth, u, oldPath, cur, entries, n - 1, t).value;
        SiblingsDisjoint(u, oldPath, cur, entries, n - 1);
        assert PlacesIn(u, oldPath, cur, entries, n) == before + Places(u, oldPath, cur, entry);
        assert WellNamed(entry);
        assert TraverseEntries(m, depth, u, oldPath, cur, entries, n, t) ==
          Traverse(m, depth, u, oldPath, cur, entry, t1);
        NextEntryEmits(m, depth, u, oldPath, cur, entry, t, t1, before, excl, e);
      } else {
        assert before + {} == before;
      }
    }
  }

  /** The next subdirectory, after earlier siblings whose places are `before`. */
  lemma {:induction false} NextEntryEmits(m: Mode, depth: nat, u: Updates, oldPath: Elements, cur: Option<Elements>,
                                          entry: BaseDir, t: Tree, t1: Tree, before: set<Place>, excl: Excludes,
                                            e: Emitted)
    requires UpdatesTyped(u) && AllNonEmpty(oldPath) && OptionNonEmpty(cur) && WellNamed(entry)
    requires before !! Places(u, oldPath, cur, entry)
    requires Injective(t, before + Places(u, oldPath, cur, entry)) && Free(t, Places(u, oldPath, cur, entry))
    requires Grown(t, t1, before)
    requires Emits(t1, excl, e) <==> Emits(t, excl, e) || PlacesEmit(t, excl, before, e)
    requires FaithfulParse(m)
    requires Traverse(m, depth, u, oldPath, cur, entry, t1).Ok?
    ensures Grown(t, Traverse(m, depth, u, oldPath, cur, entry, t1).value, before + Places(u, oldPath, cur, entry))
    ensures Emits(Traverse(m, depth, u, oldPath, cur, entry, t1).value, excl, e) <==>
      Emits(t, excl, e) || PlacesEmit(t, excl, before + Places(u, oldPath, cur, entry), e)
    decreases entry, 2
  {
    var below := Places(u, oldPath, cur, entry);
    FreeAfter(t, t1, before, below);
    TraverseEmits(m, depth, u, oldPath, cur, entry, t1, excl, e);
    CombineEmits(t, t1, Traverse(m, depth, u, oldPath, cur, entry, t1).value, before, below, excl, e);
  }

  lemma CombineEmits(t: Tree, t1: Tree, t2: Tree, before: set<Place>, below: set<Place>, excl: Excludes, e: Emitted)
    requires Grown(t, t1, before) && Grown(t1, t2, below)
    requires Emits(t1, excl, e) <==> Emits(t, excl, e) || PlacesEmit(t, excl, before, e)
    requires Emits(t2, excl, e) <==> Emits(t1, excl, e) || PlacesEmit(t1, excl, below, e)
    ensures Grown(t, t2, before + below)
    ensures Emits(t2, excl, e) <==> Emits(t, excl, e) || PlacesEmit(t, excl, before + below, e)
  {
    GrownTrans(t, t1, t2, before, below);
    SameExpectation(t, t1, before, excl, below, e);
    PlacesEmitUnion(t, excl, before, below, e);
  }
}
