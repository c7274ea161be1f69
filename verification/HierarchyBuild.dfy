/**
 `inflateBaseTree`, `inflateDirTree` and `buildKopiaDirs`: bases are merged into the
 collection tree in place, and the tree is turned into the directories that kopia walks.
 */
module HierarchyBuild {
  import opened Wrappers
  import opened PathEscaping
  import opened MergeModel
  import opened TreeMaps
  import opened CollectionInflation
  import opened BaseTraversal
  import opened HierarchyMerge
  import opened HierarchyInflation
  import opened KopiaDirs
  import opened MergeSucceeds

  // ---------------------------------------------------------------------------
  // What holds of every node, whatever the input
  // ---------------------------------------------------------------------------

  ghost predicate ReadyTree(t: Tree) {
    forall p :: p in t ==> Ready(t[p])
  }

  /** With a tenant given, every path starts with it. */
  ghost predicate StartsIn(tenant: Option<string>, p: Elements) {
    tenant.Some? ==> p != [] && p[0] == tenant.value
  }

  ghost predicate GoesIn(tenant: Option<string>, p: Option<Elements>) {
    p.Some? ==> StartsIn(tenant, p.value)
  }

  ghost predicate UpdatesIn(tenant: Option<string>, u: Updates) {
    forall k :: k in u ==> GoesIn(tenant, u[k].p)
  }

  /** Nodes are fit for iteration, and in the tenant if there is one. */
  ghost predicate Sound(tenant: Option<string>, t: Tree) {
    ReadyTree(t) && forall p :: p in t ==> StartsIn(tenant, p)
  }

  lemma FinishSound(tenant: Option<string>, m: Mode, t: Tree, own: Place, changed: bool)
    requires Sound(tenant, t) && GoesIn(tenant, own.cur) && Finish(m, t, own, changed).Ok?
    ensures Sound(tenant, Finish(m, t, own, changed).value)
  {
    if own.cur.Some? {
      var p := own.cur.value;
      forall q | q in Prefixes(p)
        ensures StartsIn(tenant, q)
      {
        var i :| 0 < i <= |p| && q == p[..i];
      }
    }
  }

  lemma {:induction false} TraverseSound(tenant: Option<string>, m: Mode, depth: nat, u: Updates, oldParent: Elements,
                                         expected: Option<Elements>, dir: BaseDir, t: Tree)
    requires Sound(tenant, t) && UpdatesIn(tenant, u) && GoesIn(tenant, expected)
    requires Traverse(m, depth, u, oldParent, expected, dir, t).Ok?
    ensures Sound(tenant, Traverse(m, depth, u, oldParent, expected, dir, t).value)
    decreases dir, 1
  {
    var own := PlaceOf(u, oldParent, expected, dir);
    if !m.prune || SubtreeChanged(t, u, own.oldPath, own.cur) {
      EntriesSound(tenant, m, depth + 1, u, own, |dir.entries|, t);
      var t1 := TraverseEntries(m, depth + 1, u, own.oldPath, own.cur, dir.entries, |dir.entries|, t).value;
      FinishSound(tenant, m, t1, own, true);
    } else {
      FinishSound(tenant, m, t, own, false);
    }
  }

  lemma {:induction false} EntriesSound(tenant: Option<string>, m: Mode, depth: nat, u: Updates, own: Place, n: nat,
                                        t: Tree)
    requires Sound(tenant, t) && UpdatesIn(tenant, u) && GoesIn(tenant, own.cur) && n <= |own.dir.entries|
    requires TraverseEntries(m, depth, u, own.oldPath, own.cur, own.dir.entries, n, t).Ok?
    ensures Sound(tenant, TraverseEntries(m, depth, u, own.oldPath, own.cur, own.dir.entries, n, t).value)
    decreases own.dir.entries, n
  {
    if n > 0 {
      EntriesSound(tenant, m, depth, u, own, n - 1, t);
      var t1 := TraverseEntries(m, depth, u, own.oldPath, own.cur, own.dir.entries, n - 1, t).value;
      if own.dir.entries[n - 1].Directory? {
        TraverseSound(tenant, m, depth, u, own.oldPath, own.cur, own.dir.entries[n - 1], t1);
      }
    }
  }

  ghost predicate SubtreesIn(tenant: Option<string>, u: Updates, ss: seq<Subtree>) {
    forall i :: 0 <= i < |ss| ==> StartsIn(tenant, Parent(NewSubtreePath(u, ss[i].path)))
  }

  lemma {:induction false} SubtreesSound(tenant: Option<string>, u: Updates, ss: seq<Subtree>, t: Tree)
    requires Sound(tenant, t) && UpdatesIn(tenant, u) && SubtreesIn(tenant, u, ss)
    requires InflateSubtrees(PRUNING, u, ss, t).Ok?
    ensures Sound(tenant, InflateSubtrees(PRUNING, u, ss, t).value)
    decreases |ss|
  {
    if ss != [] {
      var init, s := ss[..|ss| - 1], ss[|ss| - 1];
      SubtreesSound(tenant, u, init, t);
      var t1 := InflateSubtrees(PRUNING, u, init, t).value;
      if Nested(s.root, PopFront(s.path)).Found? {
        TraverseSound(tenant, PRUNING, 0, u, Parent(s.path), Some(Parent(NewSubtreePath(u, s.path))),
                      Nested(s.root, PopFront(s.path)).dir, t1);
      }
    }
  }

  lemma CollectionTreeSound(tenant: Option<string>, cs: seq<Collection>, t: Tree, u: Updates)
    requires InflatedAs(t, u, cs)
    requires forall c :: c in cs ==> GoesIn(tenant, c.fullPath)
    ensures Sound(tenant, t) && UpdatesIn(tenant, u)
  {
    assert forall p :: p in t && t[p].collection.Some? ==> CollectionOf(cs, p, t[p]);
    forall k | k in u
      ensures GoesIn(tenant, u[k].p)
    {
      var i :| UpdatesAt(cs, i, k);
      assert cs[i] in cs && u[k] == UpdateOf(cs[i]);
    }
    forall p | p in t
      ensures StartsIn(tenant, p)
    {
      var i :| 0 <= i < |cs| && LeadsTo(p, cs[i]);
      assert cs[i] in cs;
    }
  }

  lemma InflatedSound(tenant: Option<string>, bases: seq<Base>, cs: seq<Collection>)
    requires forall c :: c in cs ==> c.Typed() && GoesIn(tenant, c.fullPath)
    requires Inflate(cs).Ok? ==> SubtreesIn(tenant, Inflate(cs).value.1, AllSubtrees(bases))
    requires InflateTrees(true, bases, cs).Ok?
    ensures Sound(tenant, InflateTrees(true, bases, cs).value)
  {
    var (t, u) := Inflate(cs).value;
    InflateMeans(cs);
    CollectionTreeSound(tenant, cs, t, u);
    SubtreesSound(tenant, u, AllSubtrees(bases), t);
  }

  // ---------------------------------------------------------------------------
  // inflateBaseTree
  // ---------------------------------------------------------------------------

  /** Subtrees may be merged in two goes. */
  lemma {:induction false} SubtreesAppend(u: Updates, a: seq<Subtree>, b: seq<Subtree>, t: Tree)
    ensures InflateSubtrees(PRUNING, u, a + b, t) ==
      match InflateSubtrees(PRUNING, u, a, t)
      case Ok(t1) => InflateSubtrees(PRUNING, u, b, t1)
      case Err(e) => Err(e)
    decreases |b|
  {
    if b == [] {
      assert a + b == a;
    } else {
      SubtreesAppend(u, a, b[..|b| - 1], t);
      assert (a + b)[..|a + b| - 1] == a + b[..|b| - 1];
    }
  }

  ghost function FirstSubtrees(u: Updates, ss: seq<Subtree>, n: nat, t: Tree): Result<Tree, MergeError>
    requires n <= |ss|
  {
    InflateSubtrees(PRUNING, u, ss[..n], t)
  }

  lemma SubtreesStep(u: Updates, ss: seq<Subtree>, n: nat, t: Tree)
    requires n < |ss|
    ensures FirstSubtrees(u, ss, n, t).Ok? ==>
      FirstSubtrees(u, ss, n + 1, t) == InflateSubtree(PRUNING, u, ss[n], FirstSubtrees(u, ss, n, t).value)
    ensures FirstSubtrees(u, ss, n, t).Err? ==> FirstSubtrees(u, ss, n + 1, t) == FirstSubtrees(u, ss, n, t)
  {
    assert ss[..n + 1][..n] == ss[..n];
  }

  lemma {:induction false} SubtreesStop(u: Updates, ss: seq<Subtree>, n: nat, t: Tree)
    requires n <= |ss| && FirstSubtrees(u, ss, n, t).Err?
    ensures InflateSubtrees(PRUNING, u, ss, t) == FirstSubtrees(u, ss, n, t)
    decreases |ss| - n
  {
    if n == |ss| {
      assert ss[..n] == ss;
    } else {
      SubtreesStep(u, ss, n, t);
      SubtreesStop(u, ss, n + 1, t);
    }
  }

  /** One pass of the loop over reasons. */
  method InflateReason(h: Hierarchy, root: BaseDir, subtreePath: Elements, updatedPaths: Updates)
    returns (err: Option<MergeError>)
    requires h.Valid()
    modifies h, h.Repr
    ensures h.Valid() && fresh(h.Repr - old(h.Repr))
    ensures Outcome(err, h, InflateSubtree(PRUNING, updatedPaths, Subtree(root, subtreePath), old(h.model)))
  {
    var ent := Nested(root, PopFront(subtreePath));
    if ent.Missing? {
      return None;
    }
    if ent.NotADirectory? {
      return Some(SubtreeNotDirectory);
    }
    var newSubtreePath := subtreePath;
    if Print(subtreePath) in updatedPaths {
      if updatedPaths[Print(subtreePath)].p.None? {
        // The source panics here.
        return Some(NilDereference);
      }
      newSubtreePath := updatedPaths[Print(subtreePath)].p.value;
    }
    err := TraverseBaseDir(h, 0, updatedPaths, Parent(subtreePath), Some(Parent(newSubtreePath)), ent.dir);
  }

  method InflateBaseTree(h: Hierarchy, base: Base, updatedPaths: Updates) returns (err: Option<MergeError>)
    requires h.Valid()
    modifies h, h.Repr
    ensures h.Valid() && fresh(h.Repr - old(h.Repr))
    ensures Outcome(err, h, InflateSubtrees(PRUNING, updatedPaths, SubtreesOf(base), old(h.model)))
  {
    err := None;
    if base.incomplete {
      return;
    }
    ghost var start, ss := h.model, SubtreesOf(base);
    for i := 0 to |base.reasons|
      invariant h.Valid() && fresh(h.Repr - old(h.Repr))
      invariant err.None? && Outcome(None, h, FirstSubtrees(updatedPaths, ss, i, start))
    {
      SubtreesStep(updatedPaths, ss, i, start);
      assert ss[i] == Subtree(base.root, base.reasons[i]);
      err := InflateReason(h, base.root, base.reasons[i], updatedPaths);
      if err.Some? {
        SubtreesStop(updatedPaths, ss, i + 1, start);
        return;
      }
    }
    assert ss[..|ss|] == ss;
  }

  // ---------------------------------------------------------------------------
  // inflateDirTree
  // ---------------------------------------------------------------------------

  lemma FirstBasesSnoc(bases: seq<Base>, i: nat)
    requires i < |bases|
    ensures AllSubtrees(bases[..i + 1]) == AllSubtrees(bases[..i]) + SubtreesOf(bases[i])
  {
    assert bases[..i + 1][..i] == bases[..i];
  }

  /** What the tree is after the first `i` bases. */
  ghost function FirstBases(u: Updates, bases: seq<Base>, i: nat, t: Tree): Result<Tree, MergeError>
    requires i <= |bases|
  {
    InflateSubtrees(PRUNING, u, AllSubtrees(bases[..i]), t)
  }

  lemma BasesStep(u: Updates, bases: seq<Base>, i: nat, t: Tree)
    requires i < |bases|
    ensures FirstBases(u, bases, i, t).Ok? ==>
      FirstBases(u, bases, i + 1, t) ==
        InflateSubtrees(PRUNING, u, SubtreesOf(bases[i]), FirstBases(u, bases, i, t).value)
    ensures FirstBases(u, bases, i, t).Err? ==> FirstBases(u, bases, i + 1, t) == FirstBases(u, bases, i, t)
  {
    FirstBasesSnoc(bases, i);
    SubtreesAppend(u, AllSubtrees(bases[..i]), SubtreesOf(bases[i]), t);
  }

  lemma {:induction false} BasesStop(u: Updates, bases: seq<Base>, i: nat, t: Tree)
    requires i <= |bases| && FirstBases(u, bases, i, t).Err?
    ensures InflateSubtrees(PRUNING, u, AllSubtrees(bases), t) == FirstBases(u, bases, i, t)
    decreases |bases| - i
  {
    if i == |bases| {
      assert bases[..i] == bases;
    } else {
      BasesStep(u, bases, i, t);
      BasesStop(u, bases, i + 1, t);
    }
  }

  method InflateBases(h: Hierarchy, bases: seq<Base>, updatedPaths: Updates) returns (err: Option<MergeError>)
    requires h.Valid()
    modifies h, h.Repr
    ensures h.Valid() && fresh(h.Repr - old(h.Repr))
    ensures Outcome(err, h, InflateSubtrees(PRUNING, updatedPaths, AllSubtrees(bases), old(h.model)))
  {
    err := None;
    ghost var start := h.model;
    for i := 0 to |bases|
      invariant h.Valid() && fresh(h.Repr - old(h.Repr))
      invariant err.None? && Outcome(None, h, FirstBases(updatedPaths, bases, i, start))
    {
      BasesStep(updatedPaths, bases, i, start);
      err := InflateBaseTree(h, bases[i], updatedPaths);
      if err.Some? {
        BasesStop(updatedPaths, bases, i + 1, start);
        return;
      }
    }
    assert bases[..|bases|] == bases;
  }

  // ---------------------------------------------------------------------------
  // buildKopiaDirs
  // ---------------------------------------------------------------------------

  /** `d` was built from the node at `p` and everything below it. */
  ghost predicate BuiltFrom(t: Tree, p: Elements, d: KopiaDir)
    decreases d
  {
    && p in t && p != [] && d.name == p[|p| - 1] && d.params == t[p]
    && (forall i :: 0 <= i < |d.staticEnts| ==> BuiltFrom(t, p + [d.staticEnts[i].name], d.staticEnts[i]))
    && (forall e :: p + [e] in t <==> Named(d.staticEnts, e))
    && (forall i, j :: 0 <= i < j < |d.staticEnts| ==> d.staticEnts[i].name != d.staticEnts[j].name)
  }

  ghost predicate Named(dirs: seq<KopiaDir>, name: string) {
    exists i :: 0 <= i < |dirs| && dirs[i].name == name
  }

  lemma NamedSnoc(dirs: seq<KopiaDir>, d: KopiaDir, name: string)
    ensures Named(dirs + [d], name) <==> Named(dirs, name) || name == d.name
  {
    if i :| 0 <= i < |dirs| && dirs[i].name == name {
      assert (dirs + [d])[i].name == name;
    }
    assert (dirs + [d])[|dirs|] == d;
  }

  ghost function Below(t: Tree, p: Elements): set<Elements> {
    set q | q in t && p <= q
  }

  lemma ChildBelow(t: Tree, p: Elements, e: string)
    requires p in t
    ensures Below(t, p + [e]) < Below(t, p)
  {
    assert p in Below(t, p) && p !in Below(t, p + [e]);
  }

  ghost predicate BuiltChildren(t: Tree, p: Elements, dirs: seq<KopiaDir>, names: set<string>) {
    && (forall i :: 0 <= i < |dirs| ==> dirs[i].name in names && BuiltFrom(t, p + [dirs[i].name], dirs[i]))
    && (forall e :: e in names ==> Named(dirs, e))
    && (forall i, j :: 0 <= i < j < |dirs| ==> dirs[i].name != dirs[j].name)
  }

  lemma BuiltChildrenSnoc(t: Tree, p: Elements, dirs: seq<KopiaDir>, names: set<string>, d: KopiaDir)
    requires BuiltChildren(t, p, dirs, names) && d.name !in names && BuiltFrom(t, p + [d.name], d)
    ensures BuiltChildren(t, p, dirs + [d], names + {d.name})
  {
    forall e | e in names + {d.name}
      ensures Named(dirs + [d], e)
    {
      NamedSnoc(dirs, d, e);
    }
  }

  lemma TakenFrom(all: set<string>, left: set<string>, x: string)
    requires left <= all && x in left
    ensures all - (left - {x}) == all - left + {x}
  {
  }

  method BuildKopiaDirs(h: Hierarchy, ghost p: Elements, dirName: string, dir: TreeMap) returns (d: KopiaDir)
    requires h.Valid() && h.IsNode(p, dir) && p != [] && dirName == p[|p| - 1]
    ensures BuiltFrom(h.model, p, d)
    decreases Below(h.model, p), 1
  {
    var childDirs := [];
    var left := dir.childDirs.Keys;
    while left != {}
      invariant left <= dir.childDirs.Keys && BuiltChildren(h.model, p, childDirs, dir.childDirs.Keys - left)
      decreases left
    {
      var childName :| childName in left;
      var child := BuildChild(h, p, dir, childName);
      BuiltChildrenSnoc(h.model, p, childDirs, dir.childDirs.Keys - left, child);
      TakenFrom(dir.childDirs.Keys, left, childName);
      childDirs := childDirs + [child];
      left := left - {childName};
    }
    BuiltWhole(h, p, dirName, dir, childDirs);
    return KopiaDir(dirName, dir.node, childDirs);
  }

  /** The recursive call for one child. */
  method BuildChild(h: Hierarchy, ghost p: Elements, dir: TreeMap, childName: string) returns (child: KopiaDir)
    requires h.Valid() && h.IsNode(p, dir) && p != [] && childName in dir.childDirs
    ensures BuiltFrom(h.model, p + [childName], child) && child.name == childName
    decreases Below(h.model, p), 0
  {
    h.ChildIsNode(p, dir, childName);
    ChildBelow(h.model, p, childName);
    child := BuildKopiaDirs(h, p + [childName], childName, dir.childDirs[childName]);
  }

  lemma BuiltWhole(h: Hierarchy, p: Elements, dirName: string, dir: TreeMap, dirs: seq<KopiaDir>)
    requires h.Valid() && h.IsNode(p, dir) && p != [] && dirName == p[|p| - 1]
    requires BuiltChildren(h.model, p, dirs, dir.childDirs.Keys)
    ensures BuiltFrom(h.model, p, KopiaDir(dirName, dir.node, dirs))
  {
    forall e
      ensures p + [e] in h.model <==> Named(dirs, e)
    {
      h.ChildIsNode(p, dir, e);
    }
  }

  lemma {:induction false} BuiltAllReady(t: Tree, p: Elements, d: KopiaDir)
    requires BuiltFrom(t, p, d) && ReadyTree(t)
    ensures AllReady(d)
    decreases d
  {
    forall i | 0 <= i < |d.staticEnts|
      ensures AllReady(d.staticEnts[i])
    {
      BuiltAllReady(t, p + [d.staticEnts[i].name], d.staticEnts[i]);
    }
  }

  ghost predicate EmitsBelow(t: Tree, p: Elements, excl: Excludes, e: Emitted) {
    exists q :: q in t && p <= q && NodeEmits(t[q], excl, e)
  }

  lemma EmitsBelowSplits(t: Tree, p: Elements, excl: Excludes, e: Emitted)
    requires PrefixClosed(t) && p in t
    ensures EmitsBelow(t, p, excl, e) <==>
      NodeEmits(t[p], excl, e) || exists n :: p + [n] in t && EmitsBelow(t, p + [n], excl, e)
  {
    if EmitsBelow(t, p, excl, e) {
      var q :| q in t && p <= q && NodeEmits(t[q], excl, e);
      if q != p {
        var n := q[|p|];
        assert q[..|p| + 1] == p + [n];
        assert EmitsBelow(t, p + [n], excl, e);
      }
    }
  }

  /** Walking the directories built from a tree reaches exactly what its nodes emit. */
  lemma {:induction false} UploadsWhatTheTreeEmits(t: Tree, p: Elements, d: KopiaDir, excl: Excludes, e: Emitted)
    requires PrefixClosed(t) && BuiltFrom(t, p, d) && AllReady(d)
    ensures Uploads(d, excl, e) <==> EmitsBelow(t, p, excl, e)
    decreases d
  {
    NodeUploadsWhatItEmits(d.params, excl, e);
    EmitsBelowSplits(t, p, excl, e);
    forall i | 0 <= i < |d.staticEnts|
      ensures Uploads(d.staticEnts[i], excl, e) <==> EmitsBelow(t, p + [d.staticEnts[i].name], excl, e)
    {
      UploadsWhatTheTreeEmits(t, p + [d.staticEnts[i].name], d.staticEnts[i], excl, e);
    }
    if n :| p + [n] in t && EmitsBelow(t, p + [n], excl, e) {
      assert Named(d.staticEnts, n);
    }
  }

  // ---------------------------------------------------------------------------
  // inflateDirTree
  // ---------------------------------------------------------------------------

  ghost predicate UploadsFrom(root: Option<KopiaDir>, excl: Excludes, e: Emitted) {
    root.Some? && AllReady(root.value) && Uploads(root.value, excl, e)
  }

  /** `root` stands for the whole tree. */
  ghost predicate WholeTree(t: Tree, root: Option<KopiaDir>) {
    match root
    case None => t == map[]
    case Some(d) => BuiltFrom(t, [d.name], d) && forall p :: p in t ==> [d.name] <= p
  }

  lemma WholeTreeUploads(t: Tree, root: Option<KopiaDir>, excl: Excludes, e: Emitted)
    requires PrefixClosed(t) && ReadyTree(t) && WholeTree(t, root)
    ensures UploadsFrom(root, excl, e) <==> Emits(t, excl, e)
  {
    if root.Some? {
      var d := root.value;
      BuiltAllReady(t, [d.name], d);
      UploadsWhatTheTreeEmits(t, [d.name], d, excl, e);
      if Emits(t, excl, e) {
        var p :| p in t && NodeEmits(t[p], excl, e);
        assert EmitsBelow(t, [d.name], excl, e);
      }
    }
  }

  /** A hierarchy with at most one root is empty, or that root's. */
  lemma RootsCover(h: Hierarchy)
    requires h.Valid()
    ensures h.roots == map[] ==> h.model == map[]
    ensures forall e :: h.roots.Keys == {e} ==> forall p :: p in h.model ==> [e] <= p
  {
    h.ModelPrefixClosed();
    forall p | p in h.model
      ensures p != [] && p[0] in h.roots
    {
      TakeOne(p);
      h.RootIsNode(p[0]);
      assert p[..1] in h.model;
    }
    if h.roots == map[] {
      assert h.model.Keys == {};
    }
  }

  lemma SingleKey<V>(m: map<string, V>, k: string)
    requires |m| <= 1 && k in m
    ensures m.Keys == {k}
  {
    assert |m.Keys - {k}| == |m.Keys| - 1;
  }

  ghost predicate SeveralRoots(t: Tree) {
    exists a, b :: [a] in t && [b] in t && a != b
  }

  lemma TwoRoots(h: Hierarchy)
    requires h.Valid() && |h.roots| > 1
    ensures SeveralRoots(h.model)
  {
    var a :| a in h.roots;
    assert |h.roots.Keys - {a}| == |h.roots.Keys| - 1;
    var b :| b in h.roots.Keys - {a};
    h.RootIsNode(a);
    h.RootIsNode(b);
  }

  /** The check for a single root, and the call of `buildKopiaDirs`. */
  method BuildRoot(h: Hierarchy) returns (root: Option<KopiaDir>, err: Option<MergeError>)
    requires h.Valid()
    ensures err.None? ==> WholeTree(h.model, root)
    ensures err.Some? ==> err == Some(MultipleRoots) && SeveralRoots(h.model)
  {
    if |h.roots| > 1 {
      TwoRoots(h);
      return None, Some(MultipleRoots);
    }
    RootsCover(h);
    if |h.roots| == 0 {
      return None, None;
    }
    var dirName :| dirName in h.roots;
    SingleKey(h.roots, dirName);
    h.RootIsNode(dirName);
    var dir := BuildKopiaDirs(h, [dirName], dirName, h.roots[dirName]);
    return Some(dir), None;
  }

  /**
   The whole merge.  Without an error kopia uploads exactly what the merged tree emits.
   An error is the error of the merge, or is raised because the merged tree has more
   than one root.
   */
  method InflateDirTree(bases: seq<Base>, collections: seq<Collection>)
    returns (root: Option<KopiaDir>, err: Option<MergeError>)
    requires forall c :: c in collections ==> c.Typed()
    ensures err.None? ==> InflateTrees(true, bases, collections).Ok?
    ensures err.None? ==> forall excl, e ::
      UploadsFrom(root, excl, e) <==> Emits(InflateTrees(true, bases, collections).value, excl, e)
    ensures err.Some? ==>
      || InflateTrees(true, bases, collections) == Err(err.value)
      || (&& err == Some(MultipleRoots) && InflateTrees(true, bases, collections).Ok?
          && SeveralRoots(InflateTrees(true, bases, collections).value))
  {
    var h, updatedPaths;
    h, updatedPaths, err := InflateCollectionTree(collections);
    if err.Some? {
      return None, err;
    }
    err := InflateBases(h, bases, updatedPaths);
    if err.Some? {
      return None, err;
    }
    root, err := BuildRoot(h);
    if err.Some? {
      return;
    }
    BuiltUploads(h, bases, collections, root);
  }

  lemma BuiltUploads(h: Hierarchy, bases: seq<Base>, cs: seq<Collection>, root: Option<KopiaDir>)
    requires forall c :: c in cs ==> c.Typed()
    requires h.Valid() && InflateTrees(true, bases, cs) == Ok(h.model) && WholeTree(h.model, root)
    ensures forall excl, e :: UploadsFrom(root, excl, e) <==> Emits(h.model, excl, e)
  {
    InflatedSound(None, bases, cs);
    h.ModelPrefixClosed();
    forall excl, e
      ensures UploadsFrom(root, excl, e) <==> Emits(h.model, excl, e)
    {
      WholeTreeUploads(h.model, root, excl, e);
    }
  }

  /** Everything is in one tenant, new paths are of known kinds, and base subtrees are not too tall. */
  ghost predicate Mergeable(tenant: string, bases: seq<Base>, cs: seq<Collection>) {
    && (forall c :: c in cs ==> GoesIn(Some(tenant), c.fullPath))
    && NewPathsReadable(cs)
    && (forall i :: 0 <= i < |AllSubtrees(bases)| ==>
          SubtreeFits(AllSubtrees(bases)[i]) && StartsIn(Some(tenant), AllSubtrees(bases)[i].path))
  }

  /** Merging then fails only for inconsistent collections, and panics only on deleted subtree roots. */
  lemma MergesInOneTenant(tenant: string, bases: seq<Base>, cs: seq<Collection>)
    requires CollectionsTyped(cs) && SubtreesTyped(AllSubtrees(bases))
    requires Mergeable(tenant, bases, cs)
    ensures InflateTrees(true, bases, cs).Ok? <==> Consistent(cs) && !DeletesHeldRoot(cs, AllSubtrees(bases))
    ensures InflateTrees(true, bases, cs).Ok? ==> !SeveralRoots(InflateTrees(true, bases, cs).value)
  {
    InflateMeans(cs);
    MergeSucceedsIff(true, bases, cs);
    if InflateTrees(true, bases, cs).Ok? {
      var (t, u) := Inflate(cs).value;
      var ss := AllSubtrees(bases);
      CollectionTreeSound(Some(tenant), cs, t, u);
      forall i | 0 <= i < |ss|
        ensures StartsIn(Some(tenant), Parent(NewSubtreePath(u, ss[i].path)))
      {
        NewPathIn(tenant, t, u, cs, ss[i].path);
      }
      InflatedSound(Some(tenant), bases, cs);
    }
  }

  lemma NewPathIn(tenant: string, t: Tree, u: Updates, cs: seq<Collection>, path: Elements)
    requires InflatedAs(t, u, cs) && CollectionsTyped(cs)
    requires UpdatesIn(Some(tenant), u)
    requires |path| == 4 && StartsIn(Some(tenant), path)
    ensures StartsIn(Some(tenant), Parent(NewSubtreePath(u, path)))
  {
    var k := Print(path);
    if k in u {
      var i :| UpdatesAt(cs, i, k);
      assert cs[i] in cs && u[k] == UpdateOf(cs[i]);
    }
  }

  /**
   Merge correctness of the whole function.  Inside one tenant it fails exactly on
   inconsistent collections and on deleted roots of held subtrees.  Otherwise it hands kopia
   the live streamed items and the base files whose directories resolve to a live path that
   lets them in, and no others.
   */
  method MergeBackups(ghost tenant: string, bases: seq<Base>, collections: seq<Collection>)
    returns (root: Option<KopiaDir>, err: Option<MergeError>)
    requires CollectionsTyped(collections) && SubtreesTyped(AllSubtrees(bases))
    ensures Mergeable(tenant, bases, collections) ==>
      (err.None? <==> Consistent(collections) && !DeletesHeldRoot(collections, AllSubtrees(bases)))
    ensures err.None? && InjectiveResolution(collections, AllSubtrees(bases)) ==> forall excl, e ::
      UploadsFrom(root, excl, e) <==>
        StreamedLive(collections, e) || MergedFromBases(collections, bases, excl, e)
  {
    root, err := InflateDirTree(bases, collections);
    if Mergeable(tenant, bases, collections) {
      MergesInOneTenant(tenant, bases, collections);
    }
    if err.None? && InjectiveResolution(collections, AllSubtrees(bases)) {
      forall excl, e
        ensures UploadsFrom(root, excl, e) <==>
          StreamedLive(collections, e) || MergedFromBases(collections, bases, excl, e)
      {
        MergeCorrect(true, bases, collections, excl, e);
        MergedFromSubtrees(collections, bases, excl, e);
      }
    }
  }
}
