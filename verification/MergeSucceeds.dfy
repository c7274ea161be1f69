/** When the merge succeeds: no base subtree of at most 500 levels is ever rejected. */
module MergeSucceeds {
  import opened Wrappers
  import opened PathEscaping
  import opened DataPaths
  import opened MergeModel
  import opened BaseTraversal
  import opened CollectionInflation
  import opened HierarchyMerge

  /** Levels of directories, the directory itself included. */
  ghost function Height(dir: BaseDir): nat
    decreases dir, 0
  {
    1 + HeightOf(dir.entries, |dir.entries|)
  }

  ghost function HeightOf(entries: seq<BaseEntry>, n: nat): nat
    requires n <= |entries|
    decreases entries, n
  {
    if n == 0 then 0
    else
      var h, rest := if entries[n - 1].Directory? then Height(entries[n - 1]) else 0, HeightOf(entries, n - 1);
      if h > rest then h else rest
  }

  /** Paths that are certain to be read back; everything below such a path is one as well. */
  ghost predicate Readable(m: Mode, ok: Elements -> bool) {
    && !ok([]) && (forall p :: ok(p) ==> m.parse(p).Some?)
    && (forall p, name :: ok(p) && name != "" ==> ok(p + [name]))
  }

  ghost predicate OptionOk(ok: Elements -> bool, p: Option<Elements>) {
    p.Some? ==> ok(p.value)
  }

  ghost predicate UpdatesOk(ok: Elements -> bool, u: Updates) {
    forall k :: k in u ==> OptionOk(ok, u[k].p)
  }

  ghost predicate PlaceOk(ok: Elements -> bool, own: Place) {
    ok(own.oldPath) && OptionOk(ok, own.cur) && WellNamed(own.dir)
  }

  lemma ChildPlace(m: Mode, ok: Elements -> bool, u: Updates, own: Place, i: nat)
    requires Readable(m, ok) && UpdatesOk(ok, u) && PlaceOk(ok, own)
    requires i < |own.dir.entries| && own.dir.entries[i].Directory?
    ensures PlaceOk(ok, PlaceOf(u, own.oldPath, own.cur, own.dir.entries[i]))
  {
    assert WellNamedEntries(own.dir.entries);
  }

  lemma {:induction false} VisitSucceeds(m: Mode, ok: Elements -> bool, depth: nat, u: Updates, own: Place, t: Tree)
    requires Readable(m, ok) && UpdatesOk(ok, u) && PlaceOk(ok, own)
    requires depth + Height(own.dir) <= MAX_INFLATE_TRAVERSAL_DEPTH
    ensures Visit(m, depth, u, own, t).Ok?
    decreases own.dir, 0
  {
    if !m.prune || SubtreeChanged(t, u, own.oldPath, own.cur) {
      EntriesSucceed(m, ok, depth + 1, u, own, |own.dir.entries|, t);
    }
  }

  lemma {:induction false} EntriesSucceed(m: Mode, ok: Elements -> bool, depth: nat, u: Updates, own: Place, n: nat,
                                          t: Tree)
    requires Readable(m, ok) && UpdatesOk(ok, u) && PlaceOk(ok, own) && n <= |own.dir.entries|
    requires depth + HeightOf(own.dir.entries, n) <= MAX_INFLATE_TRAVERSAL_DEPTH
    ensures TraverseEntries(m, depth, u, own.oldPath, own.cur, own.dir.entries, n, t).Ok?
    decreases own.dir.entries, n
  {
    if n > 0 {
      EntriesSucceed(m, ok, depth, u, own, n - 1, t);
      if own.dir.entries[n - 1].Directory? {
        var t1 := TraverseEntries(m, depth, u, own.oldPath, own.cur, own.dir.entries, n - 1, t).value;
        ChildPlace(m, ok, u, own, n - 1);
        VisitSucceeds(m, ok, depth, u, PlaceOf(u, own.oldPath, own.cur, own.dir.entries[n - 1]), t1);
      }
    }
  }

  /** A subtree that is missing, or a directory that is not too tall. */
  ghost predicate SubtreeFits(s: Subtree) {
    && s.path != [] && HasResourcePrefix(s.path)
    && !FileOnTheWay(s.root, s.path[1..])
    && (forall d :: Holds(s, s.path, d) ==> Height(d) <= 500)
  }

  lemma InflateSubtreeSucceeds(m: Mode, ok: Elements -> bool, u: Updates, s: Subtree, t: Tree)
    requires Readable(m, ok) && UpdatesOk(ok, u) && ok(s.path)
    requires |s.path| == 4 && WellNamed(s.root) && SubtreeFits(s)
    ensures if Dereferences(u, s) then InflateSubtree(m, u, s, t).Ok?
            else InflateSubtree(m, u, s, t) == Err(NilDereference)
  {
    HoldsRootMeans(s);
    NestedFails(s.root, s.path[1..]);
    if Nested(s.root, PopFront(s.path)).Found? {
      SubtreeTop(s);
      var top := Nested(s.root, PopFront(s.path)).dir;
      var own := PlaceOf(u, Parent(s.path), Some(Parent(NewSubtreePath(u, s.path))), top);
      assert own.oldPath == s.path;
      assert OptionOk(ok, own.cur);
      VisitSucceeds(m, ok, 0, u, own, t);
    }
  }

  ghost predicate AllDereference(u: Updates, ss: seq<Subtree>) {
    forall i :: 0 <= i < |ss| ==> Dereferences(u, ss[i])
  }

  lemma AllDereferenceSnoc(u: Updates, ss: seq<Subtree>)
    requires ss != []
    ensures AllDereference(u, ss) <==> AllDereference(u, ss[..|ss| - 1]) && Dereferences(u, ss[|ss| - 1])
  {
    var init := ss[..|ss| - 1];
    assert forall i :: 0 <= i < |init| ==> init[i] == ss[i];
  }

  lemma {:induction false} InflateSubtreesSucceed(m: Mode, ok: Elements -> bool, u: Updates, ss: seq<Subtree>, t: Tree)
    requires Readable(m, ok) && UpdatesOk(ok, u) && SubtreesTyped(ss)
    requires forall i :: 0 <= i < |ss| ==> SubtreeFits(ss[i]) && ok(ss[i].path)
    ensures if AllDereference(u, ss) then InflateSubtrees(m, u, ss, t).Ok?
            else InflateSubtrees(m, u, ss, t) == Err(NilDereference)
    decreases |ss|
  {
    if ss != [] {
      var init := ss[..|ss| - 1];
      InflateSubtreesSucceed(m, ok, u, init, t);
      AllDereferenceSnoc(u, ss);
      if AllDereference(u, init) {
        InflateSubtreeSucceeds(m, ok, u, ss[|ss| - 1], InflateSubtrees(m, u, init, t).value);
      }
    }
  }

  ghost function Resources(): Elements -> bool {
    p => HasResourcePrefix(p)
  }

  ghost predicate OptionResource(p: Option<Elements>) {
    p.Some? ==> HasResourcePrefix(p.value)
  }

  lemma ResourcesReadable(prune: bool)
    ensures Readable(Mode(prune, ReadBack), Resources())
  {
    forall p | HasResourcePrefix(p)
      ensures ReadBack(p).Some?
    {
      ReparseSucceedsIff(p);
    }
  }

  ghost predicate NewPathsReadable(cs: seq<Collection>) {
    forall c :: c in cs && !c.state.NewState? ==> OptionResource(c.fullPath)
  }

  lemma UpdatesReadable(cs: seq<Collection>)
    requires CollectionsTyped(cs) && NewPathsReadable(cs) && Inflate(cs).Ok?
    ensures UpdatesOk(Resources(), Inflate(cs).value.1)
  {
    InflateMeans(cs);
    var (t, u) := Inflate(cs).value;
    forall k | k in u
      ensures OptionOk(Resources(), u[k].p)
    {
      var i :| UpdatesAt(cs, i, k);
      assert cs[i] in cs;
      assert u[k] == UpdateOf(cs[i]);
    }
  }

  /**
   With subtrees of legal height, consistent collections merge, unless one of them deletes
   the root of a subtree that a snapshot holds; then the source dereferences nil.
   */
  lemma MergeSucceedsIff(prune: bool, bases: seq<Base>, cs: seq<Collection>)
    requires CollectionsTyped(cs) && SubtreesTyped(AllSubtrees(bases)) && NewPathsReadable(cs)
    requires forall i :: 0 <= i < |AllSubtrees(bases)| ==> SubtreeFits(AllSubtrees(bases)[i])
    ensures InflateTrees(prune, bases, cs).Ok? <==> Consistent(cs) && !DeletesHeldRoot(cs, AllSubtrees(bases))
    ensures Consistent(cs) && DeletesHeldRoot(cs, AllSubtrees(bases)) ==>
      InflateTrees(prune, bases, cs) == Err(NilDereference)
  {
    InflateMeans(cs);
    if Consistent(cs) {
      var (t, u) := Inflate(cs).value;
      UpdatesReadable(cs);
      ResourcesReadable(prune);
      InflateSubtreesSucceed(Mode(prune, ReadBack), Resources(), u, AllSubtrees(bases), t);
      DereferencesIff(cs, AllSubtrees(bases));
    }
  }

  // ---------------------------------------------------------------------------
  // Pruning never fails where full traversal succeeds
  // ---------------------------------------------------------------------------

  lemma {:induction false} PrunedVisit(m: Mode, ok: Elements -> bool, depth: nat, u: Updates, own: Place, t: Tree,
                                       t': Tree)
    requires Readable(m, ok) && UpdatesOk(ok, u) && PlaceOk(ok, own)
    requires Visit(m.(prune := false), depth, u, own, t).Ok?
    ensures Visit(m, depth, u, own, t').Ok?
    decreases own.dir, 0
  {
    if !m.prune || SubtreeChanged(t', u, own.oldPath, own.cur) {
      PrunedEntries(m, ok, depth + 1, u, own, |own.dir.entries|, t, t');
    }
  }

  lemma {:induction false} PrunedEntries(m: Mode, ok: Elements -> bool, depth: nat, u: Updates, own: Place, n: nat,
                                         t: Tree, t': Tree)
    requires Readable(m, ok) && UpdatesOk(ok, u) && PlaceOk(ok, own) && n <= |own.dir.entries|
    requires TraverseEntries(m.(prune := false), depth, u, own.oldPath, own.cur, own.dir.entries, n, t).Ok?
    ensures TraverseEntries(m, depth, u, own.oldPath, own.cur, own.dir.entries, n, t').Ok?
    decreases own.dir.entries, n
  {
    if n > 0 {
      PrunedEntries(m, ok, depth, u, own, n - 1, t, t');
      if own.dir.entries[n - 1].Directory? {
        var full :=
          TraverseEntries(m.(prune := false), depth, u, own.oldPath, own.cur, own.dir.entries, n - 1, t).value;
        var pruned := TraverseEntries(m, depth, u, own.oldPath, own.cur, own.dir.entries, n - 1, t').value;
        ChildPlace(m, ok, u, own, n - 1);
        PrunedVisit(m, ok, depth, u, PlaceOf(u, own.oldPath, own.cur, own.dir.entries[n - 1]), full, pruned);
      }
    }
  }

  lemma PrunedSubtreeSucceeds(m: Mode, ok: Elements -> bool, u: Updates, s: Subtree, t: Tree, t': Tree)
    requires Readable(m, ok) && UpdatesOk(ok, u) && ok(s.path) && |s.path| == 4 && WellNamed(s.root)
    requires InflateSubtree(m.(prune := false), u, s, t).Ok?
    ensures InflateSubtree(m, u, s, t').Ok?
  {
    if Nested(s.root, PopFront(s.path)).Found? {
      SubtreeTop(s);
      var top := Nested(s.root, PopFront(s.path)).dir;
      var own := PlaceOf(u, Parent(s.path), Some(Parent(NewSubtreePath(u, s.path))), top);
      assert own.oldPath == s.path;
      PrunedVisit(m, ok, 0, u, own, t, t');
    }
  }

  lemma {:induction false} PrunedSubtreesSucceed(m: Mode, ok: Elements -> bool, u: Updates, ss: seq<Subtree>, t: Tree)
    requires Readable(m, ok) && UpdatesOk(ok, u) && SubtreesTyped(ss)
    requires forall i :: 0 <= i < |ss| ==> ok(ss[i].path)
    requires InflateSubtrees(m.(prune := false), u, ss, t).Ok?
    ensures InflateSubtrees(m, u, ss, t).Ok?
    decreases |ss|
  {
    if ss != [] {
      var init := ss[..|ss| - 1];
      PrunedSubtreesSucceed(m, ok, u, init, t);
      PrunedSubtreeSucceeds(m, ok, u, ss[|ss| - 1], InflateSubtrees(m.(prune := false), u, init, t).value,
                            InflateSubtrees(m, u, init, t).value);
    }
  }

  /** With readable paths, the merge with pruning succeeds if the one without does, and emits the same files. */
  lemma PruningKeepsSuccess(bases: seq<Base>, cs: seq<Collection>)
    requires CollectionsTyped(cs) && SubtreesTyped(AllSubtrees(bases)) && NewPathsReadable(cs)
    requires forall i :: 0 <= i < |AllSubtrees(bases)| ==> HasResourcePrefix(AllSubtrees(bases)[i].path)
    requires InflateTrees(false, bases, cs).Ok?
    ensures InflateTrees(true, bases, cs).Ok?
    ensures InjectiveResolution(cs, AllSubtrees(bases)) ==> forall excl, e ::
      Emits(InflateTrees(true, bases, cs).value, excl, e) <==> Emits(InflateTrees(false, bases, cs).value, excl, e)
  {
    var (t, u) := Inflate(cs).value;
    UpdatesReadable(cs);
    ResourcesReadable(true);
    PrunedSubtreesSucceed(Mode(true, ReadBack), Resources(), u, AllSubtrees(bases), t);
    if InjectiveResolution(cs, AllSubtrees(bases)) {
      forall excl, e
        ensures Emits(InflateTrees(true, bases, cs).value, excl, e) <==>
          Emits(InflateTrees(false, bases, cs).value, excl, e)
      {
        PruningRefinesFullTraversal(bases, cs, excl, e);
      }
    }
  }
}
