/**
 Why the resolution of base directories has to be injective.

 Each path of the tree has one base directory.  Of two directories that resolve to one
 path only one can be merged, and the files of the other are lost.
 */
module CollidingDirectories {
  import opened Wrappers
  import opened PathEscaping
  import opened DataPaths
  import opened MergeModel
  import opened BaseTraversal
  import opened TraversalEmission
  import opened CollectionInflation
  import opened HierarchyMerge
  import opened MergeSucceeds
  import opened TreeInvariants

  // ---------------------------------------------------------------------------
  // What the traversal keeps, whatever resolves to what
  // ---------------------------------------------------------------------------

  /** Base subtrees are streamed only when pruning, and only where no collection is placed. */
  ghost predicate StreamsBare(m: Mode, t: Tree) {
    forall p :: p in t && t[p].streamBaseEnts ==> m.prune && NoCollectionFrom(t, p)
  }

  ghost predicate Kept(m: Mode, t: Tree, t': Tree) {
    TreeOk(t') && SameCollections(t, t') && StreamsBare(m, t')
  }

  lemma AddBaseKeeps(m: Mode, t: Tree, own: Place, stream: bool)
    requires TreeOk(t) && StreamsBare(m, t) && FaithfulParse(m)
    requires own.cur.Some? && WellNamed(own.dir) && AllNonEmpty(own.oldPath) && AllNonEmpty(own.cur.value)
    requires stream ==> m.prune && NoCollectionFrom(t, own.cur.value)
    requires AddBase(m, t, own.oldPath, own.cur.value, own.dir, stream).Ok?
    ensures Kept(m, t, AddBase(m, t, own.oldPath, own.cur.value, own.dir, stream).value)
  {
    var cur := own.cur.value;
    AddBaseIs(m, t, own.oldPath, cur, own.dir, stream);
    var t1 := WithNode(t, cur);
    WithNodeKeeps(m, t, cur);
    if !Skips(t1, cur) {
      SetBaseKeeps(m, t1, cur, AddBase(m, t, own.oldPath, cur, own.dir, stream).value[cur]);
    }
  }

  lemma WithNodeKeeps(m: Mode, t: Tree, p: Elements)
    requires TreeOk(t) && StreamsBare(m, t)
    ensures Kept(m, t, WithNode(t, p))
  {
    WithNodePrefixClosed(t, p);
  }

  lemma SetBaseKeeps(m: Mode, t: Tree, p: Elements, n: Node)
    requires TreeOk(t) && StreamsBare(m, t) && p in t
    requires n.collection == t[p].collection && n.currentPath == Some(p)
    requires n.baseDir.Some? && WellNamed(n.baseDir.value)
    requires n.streamBaseEnts ==> m.prune && NoCollectionFrom(t, p)
    ensures Kept(m, t, t[p := n])
  {
    assert SameCollections(t, t[p := n]);
  }

  lemma FinishKeeps(m: Mode, t: Tree, own: Place, changed: bool)
    requires TreeOk(t) && StreamsBare(m, t) && FaithfulParse(m)
    requires WellNamed(own.dir) && AllNonEmpty(own.oldPath) && OptionNonEmpty(own.cur)
    requires !changed && own.cur.Some? ==> m.prune && NoCollectionFrom(t, own.cur.value)
    requires Finish(m, t, own, changed).Ok?
    ensures Kept(m, t, Finish(m, t, own, changed).value)
  {
    if own.cur.Some? && (HasFiles(own.dir.entries) || !changed) {
      AddBaseKeeps(m, t, own, !changed);
    }
  }

  lemma {:induction false} VisitKeeps(m: Mode, depth: nat, u: Updates, own: Place, t: Tree)
    requires TreeOk(t) && StreamsBare(m, t) && FaithfulParse(m) && UpdatesTyped(u)
    requires WellNamed(own.dir) && AllNonEmpty(own.oldPath) && OptionNonEmpty(own.cur)
    requires Visit(m, depth, u, own, t).Ok?
    ensures Kept(m, t, Visit(m, depth, u, own, t).value)
    decreases own.dir, 0
  {
    if !m.prune || SubtreeChanged(t, u, own.oldPath, own.cur) {
      EntriesKeep(m, depth + 1, u, own, |own.dir.entries|, t);
      var t1 := TraverseEntries(m, depth + 1, u, own.oldPath, own.cur, own.dir.entries, |own.dir.entries|, t).value;
      FinishKeeps(m, t1, own, true);
    } else {
      if own.cur.Some? && own.cur.value != [] {
        UnchangedHasNoCollections(t, u, own.oldPath, own.cur.value);
      }
      RootIsNoTarget(m, t, own);
      FinishKeeps(m, t, own, false);
    }
  }

  lemma RootIsNoTarget(m: Mode, t: Tree, own: Place)
    requires Finish(m, t, own, false).Ok?
    ensures own.cur != Some([])
  {
  }

  lemma {:induction false} EntriesKeep(m: Mode, depth: nat, u: Updates, own: Place, n: nat, t: Tree)
    requires TreeOk(t) && StreamsBare(m, t) && FaithfulParse(m) && UpdatesTyped(u) && n <= |own.dir.entries|
    requires WellNamed(own.dir) && AllNonEmpty(own.oldPath) && OptionNonEmpty(own.cur)
    requires TraverseEntries(m, depth, u, own.oldPath, own.cur, own.dir.entries, n, t).Ok?
    ensures Kept(m, t, TraverseEntries(m, depth, u, own.oldPath, own.cur, own.dir.entries, n, t).value)
    decreases own.dir.entries, n
  {
    if n > 0 {
      EntriesKeep(m, depth, u, own, n - 1, t);
      if own.dir.entries[n - 1].Directory? {
        var t1 := TraverseEntries(m, depth, u, own.oldPath, own.cur, own.dir.entries, n - 1, t).value;
        assert WellNamedEntries(own.dir.entries);
        VisitKeeps(m, depth, u, PlaceOf(u, own.oldPath, own.cur, own.dir.entries[n - 1]), t1);
      }
    }
  }

  lemma SubtreeKeeps(m: Mode, u: Updates, s: Subtree, t: Tree)
    requires TreeOk(t) && StreamsBare(m, t) && FaithfulParse(m) && UpdatesTyped(u)
    requires |s.path| == 4 && AllNonEmpty(s.path) && WellNamed(s.root)
    requires InflateSubtree(m, u, s, t).Ok?
    ensures Kept(m, t, InflateSubtree(m, u, s, t).value)
  {
    if Nested(s.root, PopFront(s.path)).Found? {
      SubtreeTop(s);
      var top := Nested(s.root, PopFront(s.path)).dir;
      var own := PlaceOf(u, Parent(s.path), Some(Parent(NewSubtreePath(u, s.path))), top);
      assert own.oldPath == s.path;
      VisitKeeps(m, 0, u, own, t);
    }
  }

  lemma {:induction false} SubtreesKeep(m: Mode, u: Updates, ss: seq<Subtree>, t: Tree)
    requires TreeOk(t) && StreamsBare(m, t) && FaithfulParse(m) && UpdatesTyped(u) && SubtreesTyped(ss)
    requires InflateSubtrees(m, u, ss, t).Ok?
    ensures Kept(m, t, InflateSubtrees(m, u, ss, t).value)
    decreases |ss|
  {
    if ss != [] {
      var init := ss[..|ss| - 1];
      SubtreesKeep(m, u, init, t);
      SubtreeKeeps(m, u, ss[|ss| - 1], InflateSubtrees(m, u, init, t).value);
    }
  }

  lemma MergeKeeps(prune: bool, bases: seq<Base>, cs: seq<Collection>)
    requires CollectionsTyped(cs) && SubtreesTyped(AllSubtrees(bases))
    requires InflateTrees(prune, bases, cs).Ok?
    ensures Kept(Mode(prune, ReadBack), Inflate(cs).value.0, InflateTrees(prune, bases, cs).value)
  {
    var (t, u) := Inflate(cs).value;
    InflateMeans(cs);
    CollectionTreeOk(t, u, cs);
    UpdatesAreTyped(t, u, cs);
    ReadBackFaithful(prune);
    assert forall p :: p in t && t[p].collection.Some? ==> CollectionOf(cs, p, t[p]);
    SubtreesKeep(Mode(prune, ReadBack), u, AllSubtrees(bases), t);
  }

  // ---------------------------------------------------------------------------
  // Two directories at one path
  // ---------------------------------------------------------------------------

  /** A node emits the files that it takes from the base to one path from one directory. */
  lemma OneSourceByNode(t: Tree, p: Elements, excl: Excludes, a: Emitted, b: Emitted)
    requires TreeOk(t) && p in t && NodeEmits(t[p], excl, a) && NodeEmits(t[p], excl, b)
    requires a.FromBase? && b.FromBase? && a.dir == b.dir
    ensures a.prevDir == b.prevDir
  {
    var n := t[p];
    var names, d := BaseEmitsAt(p, n.prevPath.value, n.baseDir.value, n.streamBaseEnts, Seen(n.collection), excl, a);
    var names', d' := BaseEmitsAt(p, n.prevPath.value, n.baseDir.value, n.streamBaseEnts, Seen(n.collection), excl, b);
    assert names == (p + names)[|p|..] == (p + names')[|p|..] == names';
  }

  /** Where a collection lies at or below a path, only the node of that path emits base files to it. */
  lemma EmittedByOwnNode(m: Mode, t: Tree, p: Elements, q: Elements, excl: Excludes, e: Emitted)
    requires TreeOk(t) && StreamsBare(m, t) && p in t && NodeEmits(t[p], excl, e)
    requires m.prune ==> e.dir <= q && CollectionAt(t, q).Some?
    ensures p == e.dir
  {
    NodeEmitsUnder(t, p, excl, e);
    assert p <= e.dir && e.dir <= q ==> p <= q;
  }

  lemma OneSource(m: Mode, t: Tree, q: Elements, excl: Excludes, a: Emitted, b: Emitted)
    requires TreeOk(t) && StreamsBare(m, t)
    requires m.prune ==> a.dir <= q && CollectionAt(t, q).Some?
    requires a.FromBase? && b.FromBase? && a.dir == b.dir && a.prevDir != b.prevDir
    ensures !(Emits(t, excl, a) && Emits(t, excl, b))
  {
    if Emits(t, excl, a) && Emits(t, excl, b) {
      var p :| p in t && NodeEmits(t[p], excl, a);
      var p' :| p' in t && NodeEmits(t[p'], excl, b);
      EmittedByOwnNode(m, t, p, q, excl, a);
      EmittedByOwnNode(m, t, p', q, excl, b);
      OneSourceByNode(t, p, excl, a, b);
    }
  }

  /** Some live collection goes to `p`, or below. */
  ghost predicate CollectionFrom(cs: seq<Collection>, p: Elements) {
    exists c :: c in cs && c.Live() && c.fullPath.Some? && p <= c.fullPath.value
  }

  /**
   Files of two directories that resolve to one path are never both in the new snapshot, if
   nothing is pruned, or a collection that goes there, or below, keeps it from being pruned.
   */
  lemma CollisionLosesAFile(prune: bool, bases: seq<Base>, cs: seq<Collection>, excl: Excludes, a: Emitted, b: Emitted)
    requires CollectionsTyped(cs) && SubtreesTyped(AllSubtrees(bases))
    requires InflateTrees(prune, bases, cs).Ok?
    requires a.FromBase? && b.FromBase? && a.dir == b.dir && a.prevDir != b.prevDir
    requires prune ==> CollectionFrom(cs, a.dir)
    ensures !Emits(InflateTrees(prune, bases, cs).value, excl, a) ||
      !Emits(InflateTrees(prune, bases, cs).value, excl, b)
  {
    var t' := InflateTrees(prune, bases, cs).value;
    MergeKeeps(prune, bases, cs);
    var q := [];
    if prune {
      var c :| c in cs && c.Live() && c.fullPath.Some? && a.dir <= c.fullPath.value;
      InflateMeans(cs);
      q := c.fullPath.value;
      LiveAtIsCollectionAt(Inflate(cs).value.0, cs, q, c);
      assert CollectionAt(t', q) == CollectionAt(Inflate(cs).value.0, q);
    }
    OneSource(Mode(prune, ReadBack), t', q, excl, a, b);
  }

  /** The equation of the merge theorem for file `e`. */
  ghost predicate MergesExactly(prune: bool, bases: seq<Base>, cs: seq<Collection>, excl: Excludes, e: Emitted)
    requires CollectionsTyped(cs) && InflateTrees(prune, bases, cs).Ok?
  {
    Emits(InflateTrees(prune, bases, cs).value, excl, e) <==>
      StreamedLive(cs, e) || MergedFromBase(cs, AllSubtrees(bases), excl, e)
  }

  /** So if both directories have files that should survive, the merge theorem fails for one of them. */
  lemma CollisionBreaksMerge(prune: bool, bases: seq<Base>, cs: seq<Collection>, excl: Excludes, a: Emitted, b: Emitted)
    requires CollectionsTyped(cs) && SubtreesTyped(AllSubtrees(bases))
    requires InflateTrees(prune, bases, cs).Ok?
    requires MergedFromBase(cs, AllSubtrees(bases), excl, a) && MergedFromBase(cs, AllSubtrees(bases), excl, b)
    requires a.dir == b.dir && a.prevDir != b.prevDir
    requires prune ==> CollectionFrom(cs, a.dir)
    ensures !MergesExactly(prune, bases, cs, excl, a) || !MergesExactly(prune, bases, cs, excl, b)
  {
    CollisionLosesAFile(prune, bases, cs, excl, a, b);
  }

  /**
   A directory that is not known to have changed becomes the base directory of its path
   even if it has no files: what another directory had there is no longer emitted.
   */
  lemma UnchangedReplaces(m: Mode, depth: nat, u: Updates, own: Place, t: Tree, excl: Excludes, e: Emitted)
    requires TreeOk(t) && FaithfulParse(m) && m.prune
    requires WellNamed(own.dir) && AllNonEmpty(own.oldPath) && own.cur.Some? && AllNonEmpty(own.cur.value)
    requires !SubtreeChanged(t, u, own.oldPath, own.cur)
    requires Visit(m, depth, u, own, t).Ok?
    requires e.FromBase? && e.dir == own.cur.value && e.prevDir != own.oldPath
    ensures own.cur.value in Visit(m, depth, u, own, t).value
    ensures !NodeEmits(Visit(m, depth, u, own, t).value[own.cur.value], excl, e)
  {
    var p := own.cur.value;
    AddBaseIs(m, t, own.oldPath, p, own.dir, true);
    UnchangedHasNoCollections(t, u, own.oldPath, p);
    OwnFilesSource(Visit(m, depth, u, own, t).value[p], p, excl, e);
  }

  lemma OwnFilesSource(n: Node, p: Elements, excl: Excludes, e: Emitted)
    requires n.currentPath == Some(p) && n.prevPath.Some? && n.baseDir.Some? && WellNamed(n.baseDir.value)
    requires e.FromBase? && e.dir == p
    ensures NodeEmits(n, excl, e) ==> n.prevPath == Some(e.prevDir)
  {
    if NodeEmits(n, excl, e) {
      var names, d := BaseEmitsAt(p, n.prevPath.value, n.baseDir.value, n.streamBaseEnts, Seen(n.collection), excl, e);
      assert names == (p + names)[|p|..];
    }
  }

  // ---------------------------------------------------------------------------
  // An accepted input that loses a file
  // ---------------------------------------------------------------------------

  function OneEntry(name: string, entry: BaseEntry): BaseDir {
    Directory(name, [entry])
  }

  /** Directories `x` and `y`, each with one file. */
  function TwoDirs(name: string, x: string, f: string, y: string, g: string): BaseDir {
    Directory(name, [OneEntry(x, BaseFile(f, 0)), OneEntry(y, BaseFile(g, 0))])
  }

  function Snapshot(root: Elements, x: string, f: string, y: string, g: string): BaseDir
    requires |root| == 4
  {
    OneEntry(root[0], OneEntry(root[1], OneEntry(root[2], TwoDirs(root[3], x, f, y, g))))
  }

  /** The collection of directory `x` moved to where the base has `y`, and has no new items. */
  function MovedOnto(root: Elements, x: string, y: string): Collection {
    Collection(MovedState, Some(root + [y]), Some(root + [x]), false, None, [])
  }

  lemma OneEntryNested(name: string, entry: BaseEntry, names: seq<string>)
    requires names != [] && names[0] == entry.name
    ensures Nested(OneEntry(name, entry), names) == Nested(entry, names[1..])
    ensures name != "" && (entry.Directory? ==> WellNamed(entry)) ==> WellNamed(OneEntry(name, entry))
    ensures Height(OneEntry(name, entry)) == 1 + if entry.Directory? then Height(entry) else 0
  {
    var dir := OneEntry(name, entry);
    assert HeightOf(dir.entries, 0) == 0;
    assert HeightOf(dir.entries, 1) == if entry.Directory? then Height(entry) else 0;
  }

  lemma TwoDirsFit(name: string, x: string, f: string, y: string, g: string)
    requires name != "" && x != "" && y != "" && x != y
    ensures WellNamed(TwoDirs(name, x, f, y, g)) && Height(TwoDirs(name, x, f, y, g)) == 2
  {
    OneEntryNested(x, BaseFile(f, 0), [f]);
    OneEntryNested(y, BaseFile(g, 0), [g]);
    var entries := TwoDirs(name, x, f, y, g).entries;
    assert HeightOf(entries, 0) == 0;
    assert HeightOf(entries, 1) == 1;
  }

  lemma SnapshotFits(root: Elements, x: string, f: string, y: string, g: string)
    requires HasResourcePrefix(root) && |root| == 4 && x != "" && y != "" && x != y
    ensures WellNamed(Snapshot(root, x, f, y, g))
    ensures Nested(Snapshot(root, x, f, y, g), PopFront(root)) == Found(TwoDirs(root[3], x, f, y, g))
    ensures SubtreeFits(Subtree(Snapshot(root, x, f, y, g), root))
  {
    var top, names := TwoDirs(root[3], x, f, y, g), PopFront(root);
    TwoDirsFit(root[3], x, f, y, g);
    OneEntryNested(root[2], top, names[1..][1..]);
    OneEntryNested(root[1], OneEntry(root[2], top), names[1..]);
    OneEntryNested(root[0], OneEntry(root[1], OneEntry(root[2], top)), names);
    OnlyRootFits(Subtree(Snapshot(root, x, f, y, g), root), top);
  }

  lemma OnlyRootFits(s: Subtree, top: BaseDir)
    requires HasResourcePrefix(s.path) && WellNamed(s.root)
    requires Nested(s.root, PopFront(s.path)) == Found(top) && Height(top) <= MAX_INFLATE_TRAVERSAL_DEPTH
    ensures SubtreeFits(s)
  {
    NestedFails(s.root, s.path[1..]);
    forall d | Holds(s, s.path, d)
      ensures d == top
    {
      NestedIs(s.root, s.path[1..], d);
    }
  }

  lemma MovedOntoResolves(root: Elements, x: string, y: string)
    requires x != y
    ensures Resolve([MovedOnto(root, x, y)], root, root + [x]) == Some(root + [y])
    ensures Resolve([MovedOnto(root, x, y)], root, root + [y]) == Some(root + [y])
  {
    var c := MovedOnto(root, x, y);
    var cs := [c];
    assert Mentions(c, root + [x]) && c in cs;
    assert (root + [x])[|root|] != (root + [y])[|root|];
    assert |root + [x]| != |root|;
    assert !Mentioned(cs, root + [y]) && !Mentioned(cs, root);
    assert (root + [y])[..|root|] == root;
  }

  /** The file `name` of directory `dir`, which goes to directory `y`. */
  function InY(root: Elements, y: string, dir: string, name: string): Emitted {
    FromBase(root + [y], name, root + [dir], 0)
  }

  /** One of the two directories of the subtree at `root`, and its file. */
  lemma FileMerges(root: Elements, x: string, f: string, y: string, g: string, excl: Excludes, first: bool)
    requires HasResourcePrefix(root) && |root| == 4 && x != "" && y != "" && x != y
    requires f !in excl(Print(root + [y])) && g !in excl(Print(root + [y]))
    ensures MergedFromBase([MovedOnto(root, x, y)], [Subtree(Snapshot(root, x, f, y, g), root)], excl,
                           if first then InY(root, y, x, f) else InY(root, y, y, g))
  {
    var cs, s := [MovedOnto(root, x, y)], Subtree(Snapshot(root, x, f, y, g), root);
    var name, file, i := if first then x else y, if first then f else g, if first then 0 else 1;
    SnapshotFits(root, x, f, y, g);
    MovedOntoResolves(root, x, y);
    var top := TwoDirs(root[3], x, f, y, g);
    var p, d := root + [name], OneEntry(name, BaseFile(file, 0));
    assert top.entries[i] == d;
    assert p[4..] == [name] && [name][1..] == [];
    assert DirAt(d, [], d);
    assert DirAtVia(top, [name], d, i);
    HoldsBelowRoot(s, p, d);
    FileIsThere(cs, s, root, name, file, y, d, excl);
  }

  lemma FileIsThere(cs: seq<Collection>, s: Subtree, root: Elements, name: string, file: string, y: string, d: BaseDir,
                    excl: Excludes)
    requires s.path == root && Holds(s, root + [name], d) && d == OneEntry(name, BaseFile(file, 0))
    requires Resolve(cs, root, root + [name]) == Some(root + [y])
    requires forall c :: c in cs ==> c.state.MovedState? && !c.doNotMerge && c.items == []
    requires file !in excl(Print(root + [y]))
    ensures MergedFromBase(cs, [s], excl, InY(root, y, name, file))
  {
    assert TargetAllows(cs, root + [y], file);
    assert BaseFile(file, 0) in d.entries;
    assert s in [s] && Merges(cs, s, d, excl, InY(root, y, name, file));
  }

  function OneBase(root: Elements, x: string, f: string, y: string, g: string): seq<Base>
    requires |root| == 4
  {
    [Base(false, Snapshot(root, x, f, y, g), [root])]
  }

  lemma MovedOntoAccepted(root: Elements, x: string, f: string, y: string, g: string)
    requires HasResourcePrefix(root) && |root| == 4 && x != "" && y != "" && x != y
    ensures AllSubtrees(OneBase(root, x, f, y, g)) == [Subtree(Snapshot(root, x, f, y, g), root)]
    ensures CollectionsTyped([MovedOnto(root, x, y)]) && SubtreesTyped(AllSubtrees(OneBase(root, x, f, y, g)))
    ensures InflateTrees(true, OneBase(root, x, f, y, g), [MovedOnto(root, x, y)]).Ok?
  {
    var bases, cs := OneBase(root, x, f, y, g), [MovedOnto(root, x, y)];
    SnapshotFits(root, x, f, y, g);
    assert bases[..0] == [];
    assert AllSubtrees(bases) == [Subtree(Snapshot(root, x, f, y, g), root)];
    assert Consistent(cs);
    assert HasResourcePrefix(root + [y]);
    MergeSucceedsIff(true, bases, cs);
  }

  lemma BothLiveInY(bases: seq<Base>, cs: seq<Collection>, excl: Excludes, root: Elements, x: string, f: string,
                    y: string, g: string)
    requires CollectionsTyped(cs) && SubtreesTyped(AllSubtrees(bases)) && InflateTrees(true, bases, cs).Ok?
    requires MergedFromBase(cs, AllSubtrees(bases), excl, InY(root, y, x, f))
    requires MergedFromBase(cs, AllSubtrees(bases), excl, InY(root, y, y, g))
    requires MovedOnto(root, x, y) in cs && x != y
    ensures !MergesExactly(true, bases, cs, excl, InY(root, y, x, f)) ||
      !MergesExactly(true, bases, cs, excl, InY(root, y, y, g))
  {
    assert CollectionFrom(cs, root + [y]);
    assert (root + [x])[|root|] != (root + [y])[|root|];
    CollisionBreaksMerge(true, bases, cs, excl, InY(root, y, x, f), InY(root, y, y, g));
  }

  /**
   The source accepts a collection that moves `x` onto the path of `y`, which no collection
   mentions.  Then the file of one of the two directories is lost.
   */
  lemma MovedOntoLosesAFile(root: Elements, x: string, f: string, y: string, g: string, excl: Excludes)
    requires HasResourcePrefix(root) && |root| == 4 && x != "" && y != "" && x != y
    requires f !in excl(Print(root + [y])) && g !in excl(Print(root + [y]))
    ensures var bases, cs := OneBase(root, x, f, y, g), [MovedOnto(root, x, y)];
      && CollectionsTyped(cs) && SubtreesTyped(AllSubtrees(bases))
      && InflateTrees(true, bases, cs).Ok?
      && (!MergesExactly(true, bases, cs, excl, InY(root, y, x, f)) ||
           !MergesExactly(true, bases, cs, excl, InY(root, y, y, g)))
  {
    var bases, cs := OneBase(root, x, f, y, g), [MovedOnto(root, x, y)];
    MovedOntoAccepted(root, x, f, y, g);
    FileMerges(root, x, f, y, g, excl, true);
    FileMerges(root, x, f, y, g, excl, false);
    BothLiveInY(bases, cs, excl, root, x, f, y, g);
  }
}
