/**
 The functions of upload.go that build the hierarchy in place, proved against the
 functions on trees of CollectionInflation, BaseTraversal and HierarchyMerge.
 */
module HierarchyInflation {
  import opened Wrappers
  import opened PathEscaping
  import opened MergeModel
  import opened TreeMaps
  import opened CollectionInflation
  import opened BaseTraversal
  import opened HierarchyMerge

  /** What a step left behind: the tree it computed, or the error it stopped with. */
  ghost predicate Outcome(err: Option<MergeError>, h: Hierarchy, expected: Result<Tree, MergeError>)
    reads h
  {
    match err
    case None => expected == Ok(h.model)
    case Some(e) => expected == Err(e)
  }

  // ---------------------------------------------------------------------------
  // inflateCollectionTree
  // ---------------------------------------------------------------------------

  lemma {:induction false} FoldStep(cs: seq<Collection>, i: nat)
    requires forall c :: c in cs ==> c.Typed()
    requires i < |cs|
    ensures forall c :: c in cs[..i] ==> c.Typed()
    ensures forall c :: c in cs[..i + 1] ==> c.Typed()
    ensures Fold(cs[..i]).Ok? ==> Fold(cs[..i + 1]) == Step(Fold(cs[..i]).value, cs[i])
    ensures Fold(cs[..i]).Err? ==> Fold(cs[..i + 1]) == Err(Fold(cs[..i]).error)
  {
    var next := cs[..i + 1];
    assert next[..|next| - 1] == cs[..i];
    assert next[|next| - 1] == cs[i];
  }

  /** An early return of the loop is the result of the whole. */
  lemma {:induction false} FoldStops(cs: seq<Collection>, i: nat)
    requires forall c :: c in cs ==> c.Typed()
    requires i <= |cs|
    requires (forall c :: c in cs[..i] ==> c.Typed()) && Fold(cs[..i]).Err?
    ensures Inflate(cs) == Err(Fold(cs[..i]).error)
    decreases |cs| - i
  {
    if i == |cs| {
      assert cs[..i] == cs;
    } else {
      FoldStep(cs, i);
      FoldStops(cs, i + 1);
    }
  }

  method PlaceCollection(h: Hierarchy, c: Collection, ghost s: InflateState) returns (err: Option<MergeError>)
    requires h.Valid() && s.tree == h.model
    modifies h, h.Repr
    ensures h.Valid() && fresh(h.Repr - old(h.Repr))
    ensures err.None? ==> PutCollection(s, c) == Ok(s.(tree := h.model))
    ensures err.Some? ==> PutCollection(s, c) == Err(err.value)
  {
    if c.fullPath.None? || |c.fullPath.value| == 0 {
      return Some(NoIdentifier);
    }
    var dir := h.GetTreeNode(c.fullPath.value);
    if dir.node.collection.Some? {
      return Some(MultipleInstances);
    }
    h.SetNode(c.fullPath.value, dir,
              dir.node.(collection := Some(c), currentPath := c.fullPath, prevPath := c.previousPath));
    return None;
  }

  method FindConflict(h: Hierarchy, changed: seq<Elements>) returns (found: bool)
    requires h.Valid()
    ensures found <==> exists i :: 0 <= i < |changed| && ConflictAt(h.model, changed[i])
  {
    for i := 0 to |changed|
      invariant forall j :: 0 <= j < i ==> !ConflictAt(h.model, changed[j])
    {
      var dir := h.MaybeGetTreeNode(changed[i]);
      if dir == null {
        continue;
      }
      assert changed[i] in h.model && dir.node == h.model[changed[i]];
      if dir.node.collection.Some? && dir.node.collection.value.state.NotMovedState? {
        assert ConflictAt(h.model, changed[i]);
        return true;
      }
    }
    return false;
  }

  /** `addMergeLocation`. */
  method RecordLocation(locations: map<string, Elements>, c: Collection, ghost s: InflateState)
    returns (res: Result<map<string, Elements>, MergeError>)
    requires s.locations == locations
    ensures res.Ok? ==> AddMergeLocation(s, c) == Ok(s.(locations := res.value))
    ensures res.Err? ==> AddMergeLocation(s, c) == Err(res.error)
  {
    if c.locations.None? {
      return Ok(locations);
    }
    if c.locations.value.previous.None? {
      return Err(NilPreviousLocation);
    } else if c.locations.value.current.None? {
      return Err(NilLocation);
    }
    var key := Print(c.locations.value.previous.value);
    if key in locations {
      return Err(DuplicateLocation);
    }
    return Ok(locations[key := c.locations.value.current.value]);
  }

  /** What the loop remembers besides the tree. */
  datatype Books = Books(
    updatedPaths: Updates,
    changedPaths: seq<Elements>,
    failed: bool,
    locations: map<string, Elements>)
  {
    ghost function With(t: Tree): InflateState {
      InflateState(t, updatedPaths, changedPaths, failed, locations)
    }

    function Record(prev: Elements, update: PathUpdate): Books {
      this.(failed := failed || Print(prev) in updatedPaths, updatedPaths := updatedPaths[Print(prev) := update])
    }
  }

  /** The switch over the state of a collection. */
  method BookCollection(books: Books, c: Collection, ghost t: Tree) returns (res: Result<Books, MergeError>)
    requires c.Typed()
    ensures res.Ok? ==> Book(books.With(t), c) == Ok(res.value.With(t))
    ensures res.Err? ==> Book(books.With(t), c) == Err(res.error)
  {
    match c.state {
      case DeletedState =>
        if c.previousPath.None? {
          return Err(NilPreviousPath);
        }
        var prev := c.previousPath.value;
        return Ok(books.Record(prev, PathUpdate(None, DeletedState)).(changedPaths := books.changedPaths + [prev]));
      case MovedState =>
        var prev := c.previousPath.value;
        var moved :=
          books.Record(prev, PathUpdate(c.fullPath, MovedState)).(changedPaths := books.changedPaths + [prev]);
        var added := RecordLocation(moved.locations, c, moved.With(t));
        if added.Err? {
          return Err(added.error);
        }
        return Ok(moved.(locations := added.value));
      case NotMovedState =>
        return Ok(books.Record(c.previousPath.value, PathUpdate(c.fullPath, NotMovedState)));
      case NewState =>
        return Ok(books);
    }
  }

  /** One pass of the loop over collections. */
  method InflateCollection(h: Hierarchy, books: Books, c: Collection) returns (res: Books, err: Option<MergeError>)
    requires h.Valid() && c.Typed()
    modifies h, h.Repr
    ensures h.Valid() && fresh(h.Repr - old(h.Repr))
    ensures err.None? ==> Step(books.With(old(h.model)), c) == Ok(res.With(h.model))
    ensures err.Some? ==> Step(books.With(old(h.model)), c) == Err(err.value)
  {
    res := books;
    var booked := BookCollection(books, c, h.model);
    if booked.Err? {
      err := Some(booked.error);
      return;
    }
    res := booked.value;
    if c.state.DeletedState? {
      err := None;
      return;
    }
    err := PlaceCollection(h, c, res.With(h.model));
  }

  ghost predicate FoldedTo(cs: seq<Collection>, i: nat, s: InflateState)
    requires i <= |cs|
  {
    (forall c :: c in cs[..i] ==> c.Typed()) && Fold(cs[..i]) == Ok(s)
  }

  method InflateCollectionTree(cs: seq<Collection>)
    returns (h: Hierarchy, updatedPaths: Updates, err: Option<MergeError>)
    requires forall c :: c in cs ==> c.Typed()
    ensures h.Valid() && fresh(h) && fresh(h.Repr)
    ensures err.None? ==> Inflate(cs) == Ok((h.model, updatedPaths))
    ensures err.Some? ==> Inflate(cs) == Err(err.value)
  {
    h := new Hierarchy();
    updatedPaths := map[];
    var books := Books(map[], [], false, map[]);
    err := None;
    for i := 0 to |cs|
      invariant h.Valid() && fresh(h) && fresh(h.Repr)
      invariant err.None? && FoldedTo(cs, i, books.With(h.model))
    {
      FoldStep(cs, i);
      books, err := InflateCollection(h, books, cs[i]);
      if err.Some? {
        FoldStops(cs, i + 1);
        return;
      }
    }
    assert cs[..|cs|] == cs;
    var conflict := FindConflict(h, books.changedPaths);
    if books.failed || conflict {
      return h, map[], Some(ConflictingStates);
    }
    return h, books.updatedPaths, None;
  }

  // ---------------------------------------------------------------------------
  // traverseBaseDir
  // ---------------------------------------------------------------------------

  const PRUNING := Mode(true, ReadBack)

  method FindSubtreeChange(h: Hierarchy, updatedPaths: Updates, oldPath: Elements, cur: Option<Elements>)
    returns (changed: bool)
    requires h.Valid()
    ensures changed <==> SubtreeChanged(h.model, updatedPaths, oldPath, cur)
  {
    if cur.Some? {
      var node := h.MaybeGetTreeNode(cur.value);
      if node != null {
        HasChildren(h, cur.value, node);
        if node.node.collection.Some? || |node.childDirs| > 0 {
          return true;
        }
      }
    }
    var prefix := Print(oldPath);
    var keys := updatedPaths.Keys;
    while keys != {}
      invariant keys <= updatedPaths.Keys
      invariant forall k :: k in updatedPaths && k !in keys ==> !StrictStringPrefix(prefix, k)
      decreases keys
    {
      var k :| k in keys;
      if |prefix| <= |k| && k[..|prefix|] == prefix && |k| != |prefix| {
        assert StrictStringPrefix(prefix, k);
        return true;
      }
      keys := keys - {k};
    }
    return false;
  }

  lemma HasChildren(h: Hierarchy, p: Elements, node: TreeMap)
    requires h.Valid() && h.IsNode(p, node)
    ensures |node.childDirs| > 0 <==> HasChild(h.model, p)
  {
    forall e
      ensures e in node.childDirs <==> p + [e] in h.model
    {
      h.ChildIsNode(p, node, e);
    }
    if |node.childDirs| > 0 {
      var e :| e in node.childDirs;
    } else {
      assert node.childDirs.Keys == {};
    }
  }

  /** The last part of `traverseBaseDir`: attaching the base directory to its node. */
  method AttachBase(h: Hierarchy, oldPath: Elements, cur: Elements, dir: BaseDir, changed: bool)
    returns (err: Option<MergeError>)
    requires h.Valid()
    modifies h, h.Repr
    ensures h.Valid() && fresh(h.Repr - old(h.Repr))
    ensures Outcome(err, h, AddBase(PRUNING, old(h.model), oldPath, cur, dir, !changed))
  {
    var node := h.GetTreeNode(cur);
    if node == null {
      return Some(NoTreeNode);
    }
    if node.node.collection.Some?
      && (node.node.collection.value.doNotMerge || node.node.collection.value.state.NewState?) {
      return None;
    }
    var curP, oldP := ReadBack(cur), ReadBack(oldPath);
    if curP.None? || oldP.None? {
      return Some(BadPath);
    }
    h.SetNode(cur, node,
        node.node.(baseDir := Some(dir), currentPath := curP, prevPath := oldP, streamBaseEnts := !changed));
    return None;
  }

  method TraverseBaseDir(h: Hierarchy, depth: nat, updatedPaths: Updates, oldDirPath: Elements,
                         expectedDirPath: Option<Elements>, dir: BaseDir)
    returns (err: Option<MergeError>)
    requires h.Valid()
    modifies h, h.Repr
    ensures h.Valid() && fresh(h.Repr - old(h.Repr))
    ensures Outcome(err, h, Traverse(PRUNING, depth, updatedPaths, oldDirPath, expectedDirPath, dir, old(h.model)))
    decreases dir, 1
  {
    if depth >= MAX_INFLATE_TRAVERSAL_DEPTH {
      return Some(TooTall);
    }
    var oldPath := Extend(oldDirPath, dir.name);
    var cur := match expectedDirPath case None => None case Some(e) => Some(Extend(e, dir.name));
    if Print(oldPath) in updatedPaths {
      cur := updatedPaths[Print(oldPath)].p;
    }
    err := VisitBaseDir(h, depth, updatedPaths, Place(oldPath, cur, dir));
  }

  method VisitBaseDir(h: Hierarchy, depth: nat, updatedPaths: Updates, own: Place) returns (err: Option<MergeError>)
    requires h.Valid()
    modifies h, h.Repr
    ensures h.Valid() && fresh(h.Repr - old(h.Repr))
    ensures Outcome(err, h, Visit(PRUNING, depth, updatedPaths, own, old(h.model)))
    decreases own.dir, 0
  {
    ghost var start := h.model;
    var changed := FindSubtreeChange(h, updatedPaths, own.oldPath, own.cur);
    var hasItems := false;
    if changed {
      hasItems, err := TraverseEntriesOf(h, depth + 1, updatedPaths, own);
      if err.Some? {
        return;
      }
    }
    if own.cur.Some? && (hasItems || !changed) {
      err := AttachBase(h, own.oldPath, own.cur.value, own.dir, changed);
    } else {
      err := None;
    }
  }

  /** The loop over a directory's entries: files are noted, directories are traversed. */
  method TraverseEntriesOf(h: Hierarchy, depth: nat, updatedPaths: Updates, own: Place)
    returns (hasItems: bool, err: Option<MergeError>)
    requires h.Valid()
    modifies h, h.Repr
    ensures h.Valid() && fresh(h.Repr - old(h.Repr))
    ensures Outcome(err, h, FirstEntries(depth, updatedPaths, own, |own.dir.entries|, old(h.model)))
    ensures err.None? ==> hasItems == HasFiles(own.dir.entries)
    decreases own.dir.entries, 1
  {
    hasItems := false;
    err := None;
    ghost var start := h.model;
    for i := 0 to |own.dir.entries|
      invariant h.Valid() && fresh(h.Repr - old(h.Repr))
      invariant err.None? && Outcome(None, h, FirstEntries(depth, updatedPaths, own, i, start))
      invariant hasItems == HasFiles(own.dir.entries[..i])
    {
      var isFile;
      isFile, err := TraverseEntry(h, depth, updatedPaths, own, i, start);
      if err.Some? {
        EntriesStop(depth, updatedPaths, own, i + 1, start);
        return;
      }
      hasItems := hasItems || isFile;
    }
  }

  ghost function FirstEntries(depth: nat, u: Updates, own: Place, n: nat, t: Tree): Result<Tree, MergeError>
    requires n <= |own.dir.entries|
  {
    TraverseEntries(PRUNING, depth, u, own.oldPath, own.cur, own.dir.entries, n, t)
  }

  /** An entry's turn in the loop. */
  method TraverseEntry(h: Hierarchy, depth: nat, updatedPaths: Updates, own: Place, i: nat, ghost start: Tree)
    returns (isFile: bool, err: Option<MergeError>)
    requires h.Valid() && i < |own.dir.entries|
    requires FirstEntries(depth, updatedPaths, own, i, start) == Ok(h.model)
    modifies h, h.Repr
    ensures h.Valid() && fresh(h.Repr - old(h.Repr))
    ensures Outcome(err, h, FirstEntries(depth, updatedPaths, own, i + 1, start))
    ensures isFile == own.dir.entries[i].BaseFile?
    decreases own.dir.entries, 0
  {
    if own.dir.entries[i].BaseFile? {
      return true, None;
    }
    isFile := false;
    err := TraverseBaseDir(h, depth, updatedPaths, own.oldPath, own.cur, own.dir.entries[i]);
  }

  lemma {:induction false} EntriesStop(depth: nat, u: Updates, own: Place, n: nat, t: Tree)
    requires n <= |own.dir.entries| && FirstEntries(depth, u, own, n, t).Err?
    ensures FirstEntries(depth, u, own, |own.dir.entries|, t) == Err(FirstEntries(depth, u, own, n, t).error)
    decreases |own.dir.entries| - n
  {
    if n < |own.dir.entries| {
      assert FirstEntries(depth, u, own, n + 1, t) == Err(FirstEntries(depth, u, own, n, t).error);
      EntriesStop(depth, u, own, n + 1, t);
    }
  }
}
